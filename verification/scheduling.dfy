/** The two bounded-concurrency shapes, read sequentially: Virgin Media's
    fixed batches (`slice(i, i + c)` for i = 0, c, 2c, …) and the worker
    pool of Vodafone and Three, whose workers shift a cloned queue until it
    is empty. Only which items are handled, in which order and in which
    batch, is modelled; the interleaving of the downloads is not. */
module Scheduling {

  function Flatten<T>(b: seq<seq<T>>): seq<T>
  {
    if |b| == 0 then [] else b[0] + Flatten(b[1..])
  }

  /** Consecutive batches of `c` items, the last one possibly shorter. */
  function Batches<T>(s: seq<T>, c: nat): seq<seq<T>>
    requires c > 0
    decreases |s|
  {
    if |s| == 0 then []
    else
      var k := if |s| < c then |s| else c;
      [s[..k]] + Batches(s[k..], c)
  }

  /** The batches concatenate back to the input. */
  lemma {:induction false} BatchesFlatten<T>(s: seq<T>, c: nat)
    requires c > 0
    ensures Flatten(Batches(s, c)) == s
    decreases |s|
  {
    if |s| > 0 {
      var k := if |s| < c then |s| else c;
      BatchesFlatten(s[k..], c);
      assert s == s[..k] + s[k..];
    }
  }

  /** Every batch holds between one and `c` items, every batch but the
      last holds exactly `c`, and there are ceil(n / c) of them: the least
      count whose `c`-fold reaches n. */
  lemma {:induction false} BatchesShape<T>(s: seq<T>, c: nat)
    requires c > 0
    ensures var b := Batches(s, c);
            && |s| <= |b| * c < |s| + c
            && (forall i :: 0 <= i < |b| ==> 0 < |b[i]| <= c)
            && (forall i :: 0 <= i < |b| - 1 ==> |b[i]| == c)
    decreases |s|
  {
    if |s| > 0 {
      var k := if |s| < c then |s| else c;
      var b' := Batches(s[k..], c);
      BatchesShape(s[k..], c);
      assert (|b'| + 1) * c == |b'| * c + c;
    }
  }

  /** The source's loop `for (i = 0; i < n; i += c) batch = s.slice(i, i + c)`
      builds exactly these batches. */
  method SliceBatches<T>(s: seq<T>, c: nat) returns (batches: seq<seq<T>>)
    requires c > 0
    ensures batches == Batches(s, c)
  {
    batches := [];
    var i := 0;
    while i < |s|
      invariant 0 <= i <= |s|
      invariant batches + Batches(s[i..], c) == Batches(s, c)
      decreases |s| - i
    {
      var j := if i + c < |s| then i + c else |s|;
      var rest := s[i..];
      assert rest[..j - i] == s[i..j];
      assert rest[j - i..] == s[j..];
      batches := batches + [s[i..j]];
      i := j;
    }
    assert s[i..] == [];
  }

  /** The worker pool: `concurrency` workers each run
      `while (queue.length > 0) handle(queue.shift())` over one clone of the
      input. Read sequentially, the items leave the queue in input order,
      each exactly once; with no worker at all nothing is handled. */
  method DrainQueue<T>(data: seq<T>, concurrency: nat) returns (taken: seq<T>)
    ensures concurrency > 0 ==> taken == data
    ensures concurrency == 0 ==> taken == []
  {
    var queue := data;
    taken := [];
    var w := 0;
    while w < concurrency
      invariant 0 <= w <= concurrency
      invariant taken + queue == data
      invariant w > 0 ==> queue == []
      invariant w == 0 ==> taken == []
    {
      while |queue| > 0
        invariant taken + queue == data
      {
        taken := taken + [queue[0]];
        queue := queue[1..];
      }
      w := w + 1;
    }
    if concurrency > 0 {
      assert taken + [] == taken;
    }
  }
}
