/** Where a server keeps its persistent state. Buffers are replaced, never written, so a
    copy may share them with the original. */
module Persister {

  type Byte = x: int | 0 <= x < 256

  method Clone(orig: array<Byte>) returns (x: array<Byte>)
    ensures fresh(x) && x[..] == orig[..]
  {
    x := new Byte[orig.Length](_ => 0);
    for i := 0 to orig.Length
      invariant x[..i] == orig[..i]
    {
      x[i] := orig[i];
    }
    assert x[..] == x[..orig.Length] == orig[..orig.Length] == orig[..];
  }

  class Persister {
    var raftstate: array<Byte>
    var snapshot: array<Byte>

    ghost function State(): seq<Byte> reads this, raftstate { raftstate[..] }

    ghost function Snapshot(): seq<Byte> reads this, snapshot { snapshot[..] }

    constructor ()
      ensures State() == [] && Snapshot() == []
    {
      raftstate := new Byte[0];
      snapshot := new Byte[0];
    }

    /** The copy starts out with the same buffers. */
    method Copy() returns (np: Persister)
      ensures fresh(np) && np.State() == State() && np.Snapshot() == Snapshot()
      ensures np.raftstate == raftstate && np.snapshot == snapshot
    {
      np := new Persister();
      np.raftstate := raftstate;
      np.snapshot := snapshot;
    }

    /** Only the field changes: whoever shares the old buffer keeps it as it was. */
    method SaveRaftState(state: array<Byte>)
      modifies this`raftstate
      ensures State() == state[..] && fresh(raftstate)
    {
      raftstate := Clone(state);
    }

    method SaveStateAndSnapshot(state: array<Byte>, snap: array<Byte>)
      modifies this
      ensures State() == state[..] && Snapshot() == snap[..]
      ensures fresh(raftstate) && fresh(snapshot)
    {
      raftstate := Clone(state);
      snapshot := Clone(snap);
    }

    /** Readers get a buffer of their own. */
    method ReadRaftState() returns (data: array<Byte>)
      ensures fresh(data) && data[..] == State()
    {
      data := Clone(raftstate);
    }

    method ReadSnapshot() returns (data: array<Byte>)
      ensures fresh(data) && data[..] == Snapshot()
    {
      data := Clone(snapshot);
    }
  }

  /** What a persister holds. */
  datatype Contents = Contents(state: seq<Byte>, snapshot: seq<Byte>)

  /** A save on the copy or on the original. */
  datatype Save =
    | SaveState(onCopy: bool, state: seq<Byte>)
    | SaveBoth(onCopy: bool, state: seq<Byte>, snapshot: seq<Byte>)

  /** What one side holds after a series of saves on both: only its own count. */
  function AfterSaves(c: Contents, saves: seq<Save>, onCopy: bool): Contents {
    if saves == [] then c else
      var before, last := AfterSaves(c, saves[..|saves| - 1], onCopy), saves[|saves| - 1];
      if last.onCopy != onCopy then before
      else if last.SaveState? then before.(state := last.state)
      else Contents(last.state, last.snapshot)
  }

  /** A side holds what was last saved on it, whatever the other side saves. */
  lemma {:induction false} LastSaveCounts(c: Contents, saves: seq<Save>, others: seq<Save>, onCopy: bool)
    requires forall i :: 0 <= i < |others| ==> others[i].onCopy != onCopy
    ensures AfterSaves(c, saves + others, onCopy) == AfterSaves(c, saves, onCopy)
  {
    if others == [] {
      assert saves + others == saves;
    } else {
      var n := |others| - 1;
      LastSaveCounts(c, saves, others[..n], onCopy);
      assert (saves + others)[..|saves| + n] == saves + others[..n];
    }
  }

  ghost function ContentsOf(p: Persister): Contents
    reads p, p.raftstate, p.snapshot
  {
    Contents(p.State(), p.Snapshot())
  }

  /** The hand-over at shutdown: although the copy shares its buffers, neither side ever sees what is saved on the
      other, in whatever order the saves come. */
  method HandOver(original: Persister, saves: seq<Save>) returns (copy: Persister)
    modifies original
    ensures fresh(copy)
    ensures ContentsOf(original) == AfterSaves(old(ContentsOf(original)), saves, false)
    ensures ContentsOf(copy) == AfterSaves(old(ContentsOf(original)), saves, true)
  {
    copy := original.Copy();
    ghost var start := ContentsOf(original);
    for i := 0 to |saves|
      invariant fresh(copy)
      invariant ContentsOf(original) == AfterSaves(start, saves[..i], false)
      invariant ContentsOf(copy) == AfterSaves(start, saves[..i], true)
    {
      var target := if saves[i].onCopy then copy else original;
      var state := new Byte[|saves[i].state|](k requires 0 <= k < |saves[i].state| => saves[i].state[k]);
      assert state[..] == saves[i].state;
      if saves[i].SaveState? {
        target.SaveRaftState(state);
      } else {
        var snapshot := new Byte[|saves[i].snapshot|](k requires 0 <= k < |saves[i].snapshot| => saves[i].snapshot[k]);
        assert snapshot[..] == saves[i].snapshot;
        target.SaveStateAndSnapshot(state, snapshot);
      }
      assert saves[..i + 1][..i] == saves[..i];
    }
    assert saves[..|saves|] == saves;
  }
}
