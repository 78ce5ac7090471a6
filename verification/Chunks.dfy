/** How the bytes given to Write are cut into chunks (xz/writer.go:142-159, 169-178, 192-203). */
module Chunks {
  import opened Bytes

  // Cut from the front: full chunks first, what remains last.
  function Split(data: seq<byte>, n: nat): (parts: seq<seq<byte>>)
    requires n > 0
    decreases |data|
  {
    if data == [] then []
    else if |data| <= n then [data]
    else [data[..n]] + Split(data[n..], n)
  }

  // A cut of data into pieces of n bytes: none is empty and only the last may be shorter.
  ghost predicate Cut(parts: seq<seq<byte>>, data: seq<byte>, n: nat)
  {
    && Flat(parts) == data
    && (forall i :: 0 <= i < |parts| ==> 0 < |parts[i]| <= n)
    && (forall i :: 0 <= i < |parts| - 1 ==> |parts[i]| == n)
  }

  // There is exactly one such cut.
  lemma SplitExact(parts: seq<seq<byte>>, data: seq<byte>, n: nat)
    requires n > 0
    ensures Cut(parts, data, n) <==> parts == Split(data, n)
  {
    SplitCuts(data, n);
    if Cut(parts, data, n) {
      CutUnique(parts, data, n);
    }
  }

  lemma {:induction false} SplitCuts(data: seq<byte>, n: nat)
    requires n > 0
    ensures Cut(Split(data, n), data, n)
    decreases |data|
  {
    if |data| > n {
      SplitCuts(data[n..], n);
      FlatPop(Split(data, n));
    } else if data != [] {
      FlatOne(data);
    }
  }

  lemma {:induction false} CutUnique(parts: seq<seq<byte>>, data: seq<byte>, n: nat)
    requires n > 0 && Cut(parts, data, n)
    ensures parts == Split(data, n)
    decreases |parts|
  {
    if parts != [] {
      FlatPop(parts);
      var rest := Flat(parts[1..]);
      assert Cut(parts[1..], rest, n);
      CutUnique(parts[1..], rest, n);
      assert parts == [parts[0]] + parts[1..];
      if |parts| == 1 {
        assert rest == [] && data == parts[0];
      } else {
        FlatPop(parts[1..]);
        assert data[..n] == parts[0] && data[n..] == rest;
      }
    }
  }
}
