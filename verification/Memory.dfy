/**
 A view machine for one atomic byte and two threads, following the C++20 rules the code
 is written against: loads may return any entry of the modification order not older than
 the thread's coherence point, read-modify-writes read the last entry and continue its
 release sequence, plain stores break it, and an acquire fence turns earlier relaxed
 loads into acquire loads.
 */
module Memory {
  import opened States

  /** What a thread is sure to have seen: steps of the sender, steps of the receiver and
      the oldest entry of the state byte's modification order it may still read. */
  datatype View = View(s: nat, r: nat, pos: nat)

  const Bottom := View(0, 0, 0)

  function Max(a: nat, b: nat): nat {
    if a < b then b else a
  }

  function Join(a: View, b: View): View {
    View(Max(a.s, b.s), Max(a.r, b.r), Max(a.pos, b.pos))
  }

  datatype Order = Relaxed | Acquire | Release | AcqRel

  predicate Acquires(o: Order) {
    o.Acquire? || o.AcqRel?
  }

  predicate Releases(o: Order) {
    o.Release? || o.AcqRel?
  }

  /** One entry of the modification order: the byte and the view it releases. */
  datatype Write = Write(val: Byte, rel: View)

  /** A thread's current view, and the view an acquire fence would add to it. */
  datatype Local = Local(cur: View, acq: View)

  /** Reading entry `i`. */
  function Observe(t: Local, hist: seq<Write>, i: nat, o: Order): Local
    requires i < |hist|
  {
    var cur := t.cur.(pos := Max(t.cur.pos, i));
    Local(if Acquires(o) then Join(cur, hist[i].rel) else cur, Join(t.acq, hist[i].rel))
  }

  /** The reader's side of a read-modify-write. */
  function Exchanged(t: Local, hist: seq<Write>, o: Order): Local
    requires hist != []
  {
    var t' := Observe(t, hist, |hist| - 1, o);
    t'.(cur := t'.cur.(pos := |hist|))
  }

  /** The modification order after a read-modify-write by `t` that writes `v`. */
  function Exchange(t: Local, hist: seq<Write>, v: Byte, o: Order): seq<Write>
    requires hist != []
  {
    var rel := hist[|hist| - 1].rel;
    hist + [Write(v, if Releases(o) then Join(rel, Exchanged(t, hist, o).cur) else rel)]
  }

  /** A relaxed store that lands last in the modification order. */
  function Stored(t: Local, hist: seq<Write>): Local {
    t.(cur := t.cur.(pos := |hist|))
  }

  function Store(hist: seq<Write>, v: Byte): seq<Write> {
    hist + [Write(v, Bottom)]
  }

  function AcquireFence(t: Local): Local {
    t.(cur := Join(t.cur, t.acq))
  }

  function Last(hist: seq<Write>): Byte
    requires hist != []
  {
    hist[|hist| - 1].val
  }
}
