/** The fixed pool's consumption mode (Pool.consumeMode: 0 = none, 1 = Go,
    2 = Collect). Go and Wait stream outcomes in completion order, Collect
    returns them in submission order; the two are mutually exclusive and a
    violating call panics. */
module Modes {
  import opened Optionals

  datatype Mode = Unset | Streaming | Collecting

  /** The integer the source stores for each mode. */
  function Code(m: Mode): (c: int)
    ensures 0 <= c <= 2
    ensures c == 0 <==> m == Unset
    ensures c == 1 <==> m == Streaming
  {
    match m
    case Unset => 0
    case Streaming => 1
    case Collecting => 2
  }

  const GoAfterCollect := "gogo: Pool.Go() called after Collect()"
  const CollectMisuse := "gogo: Pool.Collect() called after Go()/Wait() or called twice"

  /** The mode check of Pool.Go: panics after Collect, otherwise stores 1. */
  function GoMode(m: Mode): (r: Call<Mode>)
    ensures r.Returned? <==> Code(m) != 2
    ensures r.Returned? ==> Code(r.value) == 1
  {
    if m == Collecting then Panicked(GoAfterCollect) else Returned(Streaming)
  }

  /** The compare-and-swap of Pool.Collect: succeeds only from 0, storing 2. */
  function CollectMode(m: Mode): (r: Call<Mode>)
    ensures r.Returned? <==> Code(m) == 0
    ensures r.Returned? ==> Code(r.value) == 2
  {
    if m == Unset then Returned(Collecting) else Panicked(CollectMisuse)
  }

  /** The three entry points that touch the mode; Wait goes through Go. */
  datatype Entry = GoEntry | WaitEntry | CollectEntry

  function Enter(m: Mode, e: Entry): Call<Mode> {
    match e
    case GoEntry => GoMode(m)
    case WaitEntry => GoMode(m)
    case CollectEntry => CollectMode(m)
  }

  /** A sequence of entry calls on one pool; the first panic ends it. */
  function EnterAll(m: Mode, es: seq<Entry>): Call<Mode>
    decreases |es|
  {
    if |es| == 0 then Returned(m)
    else
      match Enter(m, es[0])
      case Panicked(msg) => Panicked(msg)
      case Returned(m') => EnterAll(m', es[1..])
  }

  /** Go and Wait may be called any number of times; from then on the mode
      stays Streaming. */
  lemma {:induction false} StreamingOnly(m: Mode, es: seq<Entry>)
    requires m != Collecting
    requires forall i :: 0 <= i < |es| ==> es[i] != CollectEntry
    ensures EnterAll(m, es) == Returned(if |es| == 0 then m else Streaming)
    decreases |es|
  {
    if |es| > 0 {
      StreamingOnly(Streaming, es[1..]);
    }
  }

  /** Once the mode is set, any Collect in the rest of the calls panics. */
  lemma {:induction false} CollectAfterSetPanics(m: Mode, es: seq<Entry>)
    requires m != Unset
    requires exists i :: 0 <= i < |es| && es[i] == CollectEntry
    ensures EnterAll(m, es).Panicked?
    decreases |es|
  {
    if es[0] != CollectEntry {
      if m == Collecting {
        assert Enter(m, es[0]).Panicked?;
      } else {
        var i :| 0 <= i < |es| && es[i] == CollectEntry;
        assert es[1..][i - 1] == CollectEntry;
        CollectAfterSetPanics(Streaming, es[1..]);
      }
    }
  }

  /** Mutual exclusion of the two modes: a fresh pool survives a sequence of
      entry calls exactly when the sequence is only Go/Wait calls, or a
      single Collect. */
  lemma {:induction false} ModesExclusive(es: seq<Entry>)
    ensures EnterAll(Unset, es).Returned? <==>
      (forall i :: 0 <= i < |es| ==> es[i] != CollectEntry) || es == [CollectEntry]
  {
    if forall i :: 0 <= i < |es| ==> es[i] != CollectEntry {
      StreamingOnly(Unset, es);
    } else if es == [CollectEntry] {
    } else {
      var i :| 0 <= i < |es| && es[i] == CollectEntry;
      if es[0] == CollectEntry {
        assert |es| > 1;
        assert Enter(Collecting, es[1]).Panicked?;
      } else {
        assert es[1..][i - 1] == CollectEntry;
        CollectAfterSetPanics(Streaming, es[1..]);
      }
    }
  }
}
