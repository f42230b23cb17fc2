/** Cutting a list into consecutive batches of a fixed size, and running a
    batch handler over the batches in order, as the feed and categorisation
    jobs do. */
module Batches {

  import opened Results

  /** Consecutive pieces of `n` elements taken from the front, the last one
      possibly shorter; an empty list has no pieces. */
  function Chunks<T>(s: seq<T>, n: nat): seq<seq<T>>
    requires n > 0
    decreases |s|
  {
    if |s| == 0 then []
    else if |s| <= n then [s]
    else [s[..n]] + Chunks(s[n..], n)
  }

  /** The pieces concatenated back together. */
  function Flatten<T>(bs: seq<seq<T>>): seq<T> {
    if |bs| == 0 then [] else bs[0] + Flatten(bs[1..])
  }

  /** `[s[i:i + n] for i in range(start, len(s), n)]`. */
  function SlicesFrom<T>(s: seq<T>, n: nat, start: nat): seq<seq<T>>
    requires n > 0
    decreases |s| - start
  {
    if start >= |s| then []
    else [s[start..if start + n <= |s| then start + n else |s|]] + SlicesFrom(s, n, start + n)
  }

  lemma {:induction false} FlattenAppend<T>(bs: seq<seq<T>>, b: seq<T>)
    ensures Flatten(bs + [b]) == Flatten(bs) + b
  {
    if |bs| > 0 {
      assert (bs + [b])[1..] == bs[1..] + [b];
      FlattenAppend(bs[1..], b);
    } else {
      assert bs + [b] == [b];
    }
  }

  /** Every element is in exactly one piece, in order: the pieces concatenate
      back to the list. */
  lemma {:induction false} ChunksFlatten<T>(s: seq<T>, n: nat)
    requires n > 0
    ensures Flatten(Chunks(s, n)) == s
    decreases |s|
  {
    if |s| > n {
      ChunksFlatten(s[n..], n);
      assert s == s[..n] + s[n..];
    }
  }

  /** Every piece holds between 1 and `n` elements, every piece but the last
      holds exactly `n`, and only the empty list has no pieces. */
  lemma {:induction false} ChunksSizes<T>(s: seq<T>, n: nat)
    requires n > 0
    ensures |Chunks(s, n)| == 0 <==> |s| == 0
    ensures forall k :: 0 <= k < |Chunks(s, n)| ==> 0 < |Chunks(s, n)[k]| <= n
    ensures forall k :: 0 <= k < |Chunks(s, n)| - 1 ==> |Chunks(s, n)[k]| == n
    decreases |s|
  {
    if |s| > n {
      ChunksSizes(s[n..], n);
      var rest := Chunks(s[n..], n);
      assert Chunks(s, n) == [s[..n]] + rest;
      forall k | 1 <= k < |Chunks(s, n)| ensures Chunks(s, n)[k] == rest[k - 1] { }
    }
  }

  /** Full pieces in front are kept as they are: cutting `Flatten(done) + rest`
      gives `done` followed by the pieces of `rest`. */
  lemma {:induction false} ChunksAfterFull<T>(done: seq<seq<T>>, rest: seq<T>, n: nat)
    requires n > 0
    requires forall k :: 0 <= k < |done| ==> |done[k]| == n
    ensures Chunks(Flatten(done) + rest, n) == done + Chunks(rest, n)
  {
    if |done| > 0 {
      ChunksAfterFull(done[1..], rest, n);
      var s := Flatten(done) + rest;
      var tail := Flatten(done[1..]) + rest;
      assert s == done[0] + tail;
      assert done == [done[0]] + done[1..];
      if |tail| == 0 {
        assert Chunks(tail, n) == [];
        assert done[1..] == [] && rest == [];
        assert Chunks(s, n) == [done[0]];
      } else {
        assert s[..n] == done[0];
        assert s[n..] == tail;
        assert Chunks(s, n) == [done[0]] + Chunks(tail, n);
      }
    } else {
      assert Flatten(done) + rest == rest;
    }
  }

  /** The slices taken from `start` on are the pieces of `s[start..]`. */
  lemma {:induction false} SlicesFromChunks<T>(s: seq<T>, n: nat, start: nat)
    requires n > 0
    ensures SlicesFrom(s, n, start) == Chunks(if start <= |s| then s[start..] else [], n)
    decreases |s| - start
  {
    if start < |s| {
      SlicesFromChunks(s, n, start + n);
      if start + n < |s| {
        assert s[start..][..n] == s[start..start + n];
        assert s[start..][n..] == s[start + n..];
        assert Chunks(s[start..], n) == [s[start..start + n]] + Chunks(s[start + n..], n);
      } else {
        assert s[start..if start + n <= |s| then start + n else |s|] == s[start..];
        assert Chunks(s[start..], n) == [s[start..]];
      }
    }
  }

  /** The `range`-based slicing and the accumulate-and-flush batching cut a
      list the same way. */
  lemma SlicesAreChunks<T>(s: seq<T>, n: nat)
    requires n > 0
    ensures SlicesFrom(s, n, 0) == Chunks(s, n)
  {
    SlicesFromChunks(s, n, 0);
  }

  /** Running a batch handler over the batches in order and concatenating its
      outputs; the first batch whose handler raises ends the run with that error. */
  function HandleAll<T, U>(bs: seq<seq<T>>, f: seq<T> -> Result<seq<U>>): Result<seq<U>> {
    if |bs| == 0 then Ok([])
    else
      var first :- f(bs[0]);
      var rest :- HandleAll(bs[1..], f);
      Ok(first + rest)
  }

  /** Handling one more batch: the run so far, then that batch's output. */
  lemma {:induction false} HandleAllAppend<T, U>(bs: seq<seq<T>>, b: seq<T>, f: seq<T> -> Result<seq<U>>)
    ensures HandleAll(bs, f).Err? ==> HandleAll(bs + [b], f) == HandleAll(bs, f)
    ensures HandleAll(bs, f).Ok? && f(b).Err? ==> HandleAll(bs + [b], f) == f(b)
    ensures HandleAll(bs, f).Ok? && f(b).Ok? ==> HandleAll(bs + [b], f) == Ok(HandleAll(bs, f).value + f(b).value)
  {
    if |bs| > 0 {
      assert (bs + [b])[1..] == bs[1..] + [b];
      HandleAllAppend(bs[1..], b, f);
      if HandleAll(bs, f).Ok? && f(b).Ok? {
        var first, rest := f(bs[0]).value, HandleAll(bs[1..], f).value;
        assert (first + rest) + f(b).value == first + (rest + f(b).value);
      }
    } else {
      assert bs + [b] == [b];
      assert [b][1..] == [];
      if f(b).Ok? {
        assert f(b).value + [] == f(b).value;
        assert [] + f(b).value == f(b).value;
      }
    }
  }

  /** A run that has already failed stays failed whatever batches follow. */
  lemma {:induction false} HandleAllFailed<T, U>(bs: seq<seq<T>>, more: seq<seq<T>>, f: seq<T> -> Result<seq<U>>)
    requires HandleAll(bs, f).Err?
    ensures HandleAll(bs + more, f) == HandleAll(bs, f)
  {
    if |bs| > 0 {
      assert (bs + more)[1..] == bs[1..] + more;
      if f(bs[0]).Ok? {
        HandleAllFailed(bs[1..], more, f);
      }
    }
  }

  /** A successful run gives each batch's output in batch order; when the
      handler keeps lengths, every element has exactly one output. */
  lemma {:induction false} HandleAllOutputs<T, U>(bs: seq<seq<T>>, f: seq<T> -> Result<seq<U>>)
    requires HandleAll(bs, f).Ok?
    ensures forall k :: 0 <= k < |bs| ==> f(bs[k]).Ok?
    ensures HandleAll(bs, f).value == Flatten(seq(|bs|, k requires 0 <= k < |bs| => f(bs[k]).value))
  {
    if |bs| > 0 {
      HandleAllOutputs(bs[1..], f);
      var outs := seq(|bs|, k requires 0 <= k < |bs| => f(bs[k]).value);
      assert outs[1..] == seq(|bs[1..]|, k requires 0 <= k < |bs[1..]| => f(bs[1..][k]).value);
      forall k | 0 <= k < |bs| ensures f(bs[k]).Ok? {
        if k > 0 { assert bs[k] == bs[1..][k - 1]; }
      }
    }
  }

  /** When the handler gives one output per element, the run gives one output
      per element of all the batches. */
  lemma {:induction false} HandleAllLength<T, U>(bs: seq<seq<T>>, f: seq<T> -> Result<seq<U>>)
    requires HandleAll(bs, f).Ok?
    requires forall k :: 0 <= k < |bs| && f(bs[k]).Ok? ==> |f(bs[k]).value| == |bs[k]|
    ensures |HandleAll(bs, f).value| == |Flatten(bs)|
  {
    if |bs| > 0 {
      assert forall k :: 1 <= k < |bs| ==> bs[k] == bs[1..][k - 1];
      HandleAllLength(bs[1..], f);
    }
  }

  /** The state of an accumulate-and-flush loop over `s` after `i` elements:
      the full pieces `done` have been handed to `f` with output `out`, and
      `pending` holds the rest, fewer than `n` elements. */
  ghost predicate Batching<T, U>(s: seq<T>, n: nat, i: nat, done: seq<seq<T>>, pending: seq<T>, out: seq<U>, f: seq<T> -> Result<seq<U>>) {
    && n > 0 && i <= |s| && |pending| < n
    && Flatten(done) + pending == s[..i]
    && (forall k :: 0 <= k < |done| ==> |done[k]| == n)
    && HandleAll(done, f) == Ok(out)
  }

  lemma BatchingStart<T, U>(s: seq<T>, n: nat, f: seq<T> -> Result<seq<U>>)
    requires n > 0
    ensures Batching(s, n, 0, [], [], [], f)
  {
    assert Flatten<T>([]) + [] == s[..0];
  }

  /** Taking the next element while the pending piece stays short. */
  lemma BatchingPush<T, U>(s: seq<T>, n: nat, i: nat, done: seq<seq<T>>, pending: seq<T>, out: seq<U>, f: seq<T> -> Result<seq<U>>)
    requires Batching(s, n, i, done, pending, out, f) && i < |s| && |pending| + 1 < n
    ensures Batching(s, n, i + 1, done, pending + [s[i]], out, f)
  {
    assert s[..i + 1] == s[..i] + [s[i]];
    assert Flatten(done) + (pending + [s[i]]) == (Flatten(done) + pending) + [s[i]];
  }

  /** Taking the next element fills the pending piece, and `f` accepts it. */
  lemma BatchingFlush<T, U>(s: seq<T>, n: nat, i: nat, done: seq<seq<T>>, pending: seq<T>, out: seq<U>, f: seq<T> -> Result<seq<U>>)
    requires Batching(s, n, i, done, pending, out, f) && i < |s| && |pending| + 1 == n
    requires f(pending + [s[i]]).Ok?
    ensures Batching(s, n, i + 1, done + [pending + [s[i]]], [], out + f(pending + [s[i]]).value, f)
  {
    var b := pending + [s[i]];
    assert s[..i + 1] == s[..i] + [s[i]];
    assert Flatten(done) + b == (Flatten(done) + pending) + [s[i]];
    FlattenAppend(done, b);
    HandleAllAppend(done, b, f);
    assert Flatten(done + [b]) + [] == Flatten(done + [b]);
  }

  /** Taking the next element fills the pending piece, and `f` raises on it:
      the run over all pieces ends with that error. */
  lemma BatchingFail<T, U>(s: seq<T>, n: nat, i: nat, done: seq<seq<T>>, pending: seq<T>, out: seq<U>, f: seq<T> -> Result<seq<U>>)
    requires Batching(s, n, i, done, pending, out, f) && i < |s| && |pending| + 1 == n
    requires f(pending + [s[i]]).Err?
    ensures HandleAll(Chunks(s, n), f) == f(pending + [s[i]])
  {
    var b := pending + [s[i]];
    assert s[..i + 1] == s[..i] + [s[i]];
    assert Flatten(done) + b == (Flatten(done) + pending) + [s[i]];
    FlattenAppend(done, b);
    assert forall k :: 0 <= k < |done + [b]| ==> |(done + [b])[k]| == n;
    ChunksAfterFull(done + [b], s[i + 1..], n);
    assert s == Flatten(done + [b]) + s[i + 1..];
    HandleAllAppend(done, b, f);
    HandleAllFailed(done + [b], Chunks(s[i + 1..], n), f);
  }

  /** At the end of the list, the run over all pieces is the run over `done`,
      then the pending piece's if it is not empty. */
  lemma BatchingEnd<T, U>(s: seq<T>, n: nat, done: seq<seq<T>>, pending: seq<T>, out: seq<U>, f: seq<T> -> Result<seq<U>>)
    requires Batching(s, n, |s|, done, pending, out, f)
    ensures |pending| == 0 ==> HandleAll(Chunks(s, n), f) == Ok(out)
    ensures |pending| > 0 && f(pending).Err? ==> HandleAll(Chunks(s, n), f) == f(pending)
    ensures |pending| > 0 && f(pending).Ok? ==> HandleAll(Chunks(s, n), f) == Ok(out + f(pending).value)
  {
    assert s[..|s|] == s;
    ChunksAfterFull(done, pending, n);
    if |pending| > 0 {
      assert Chunks(pending, n) == [pending];
      HandleAllAppend(done, pending, f);
    } else {
      assert done + Chunks(pending, n) == done;
    }
  }

  // ---------------------------------------------------------------------------
  // Mapping with exceptions

  /** `[f(x) for x in xs]`: the first element whose `f` raises ends the loop
      with that error. */
  function MapAll<T, U>(xs: seq<T>, f: T -> Result<U>): Result<seq<U>> {
    if |xs| == 0 then Ok([])
    else
      var y :- f(xs[0]);
      var ys :- MapAll(xs[1..], f);
      Ok([y] + ys)
  }

  /** The map succeeds exactly when `f` succeeds on every element, and then
      gives one result per element, in order. */
  lemma {:induction false} MapAllSpec<T, U>(xs: seq<T>, f: T -> Result<U>)
    ensures MapAll(xs, f).Ok? <==> forall k :: 0 <= k < |xs| ==> f(xs[k]).Ok?
    ensures MapAll(xs, f).Ok? ==>
              |MapAll(xs, f).value| == |xs| && forall k :: 0 <= k < |xs| ==> MapAll(xs, f).value[k] == f(xs[k]).value
  {
    if |xs| > 0 {
      assert forall k :: 1 <= k < |xs| ==> xs[k] == xs[1..][k - 1];
      MapAllSpec(xs[1..], f);
    }
  }

  /** Mapping one more element. */
  lemma {:induction false} MapAllAppend<T, U>(xs: seq<T>, x: T, f: T -> Result<U>)
    ensures MapAll(xs, f).Err? ==> MapAll(xs + [x], f) == MapAll(xs, f)
    ensures MapAll(xs, f).Ok? && f(x).Err? ==> MapAll(xs + [x], f) == Err(f(x).error)
    ensures MapAll(xs, f).Ok? && f(x).Ok? ==> MapAll(xs + [x], f) == Ok(MapAll(xs, f).value + [f(x).value])
  {
    if |xs| > 0 {
      assert (xs + [x])[1..] == xs[1..] + [x];
      MapAllAppend(xs[1..], x, f);
      if MapAll(xs, f).Ok? && f(x).Ok? {
        var y, ys := f(xs[0]).value, MapAll(xs[1..], f).value;
        assert ([y] + ys) + [f(x).value] == [y] + (ys + [f(x).value]);
      }
    } else {
      assert xs + [x] == [x];
      assert [x][1..] == [];
      if f(x).Ok? {
        assert [f(x).value] + [] == [] + [f(x).value];
      }
    }
  }

  /** One pass of a loop computing `MapAll(xs, f)` from the front: on success
      the prefix's results grow by one, on failure the whole map fails with
      that error. */
  lemma MapAllStep<T, U>(xs: seq<T>, i: nat, f: T -> Result<U>, acc: seq<U>)
    requires i < |xs| && MapAll(xs[..i], f) == Ok(acc)
    ensures f(xs[i]).Ok? ==> MapAll(xs[..i + 1], f) == Ok(acc + [f(xs[i]).value])
    ensures f(xs[i]).Err? ==> MapAll(xs, f) == Err(f(xs[i]).error)
  {
    MapAllAppend(xs[..i], xs[i], f);
    assert xs[..i + 1] == xs[..i] + [xs[i]];
    if f(xs[i]).Err? {
      MapAllFailed(xs[..i + 1], xs[i + 1..], f);
      assert xs == xs[..i + 1] + xs[i + 1..];
    }
  }

  /** A map that has already failed stays failed whatever elements follow. */
  lemma {:induction false} MapAllFailed<T, U>(xs: seq<T>, more: seq<T>, f: T -> Result<U>)
    requires MapAll(xs, f).Err?
    ensures MapAll(xs + more, f) == MapAll(xs, f)
  {
    if |xs| > 0 {
      assert (xs + more)[1..] == xs[1..] + more;
      if f(xs[0]).Ok? {
        MapAllFailed(xs[1..], more, f);
      }
    }
  }
}
