/** Histories given as call and return events: renumbering their ids and turning them
    into entries timed by position. */
module Events {
  import opened Wrappers
  import opened Sequences
  import opened Linearizability
  import opened Entries

  datatype Event<+I, +O> =
    | CallEvent(clientId: int, input: I, id: int)
    | ReturnEvent(clientId: int, output: O, id: int)

  ghost predicate HasPartner<I, O>(events: seq<Event<I, O>>, i: nat) {
    exists j :: 0 <= j < |events| && j != i && i < |events| && events[j].id == events[i].id
  }

  /** Every id occurs exactly twice: once as a call and once as a return. Ids are otherwise arbitrary. */
  ghost predicate Paired<I, O>(events: seq<Event<I, O>>) {
    && (forall i, j :: 0 <= i < j < |events| && events[i].id == events[j].id ==> events[i].CallEvent? != events[j].CallEvent?)
    && (forall i: nat :: i < |events| ==> HasPartner(events, i))
  }

  /** `r` is `events` with its ids replaced, one to one, by 0, 1, ..., k-1 in the order of their first occurrence. */
  ghost predicate Renumbered<I, O>(events: seq<Event<I, O>>, r: seq<Event<I, O>>, k: nat) {
    && |r| == |events|
    && (forall i :: 0 <= i < |r| ==> 0 <= r[i].id < k && r[i] == events[i].(id := r[i].id))
    && (forall i, j :: 0 <= i < |r| && 0 <= j < |r| ==> (r[i].id == r[j].id <==> events[i].id == events[j].id))
    && (forall x :: 0 <= x < k ==> FirstAt(r, x))
  }

  /** `x` occurs, and wherever it occurs first all smaller ids have occurred before. */
  ghost predicate FirstAt<I, O>(r: seq<Event<I, O>>, x: int) {
    exists i :: 0 <= i < |r| && r[i].id == x && forall j :: 0 <= j < i ==> r[j].id < x
  }

  /** The numbers given so far: `m` holds those of the ids that have occurred, and `k` is the next one. */
  ghost predicate Numbering<I, O>(events: seq<Event<I, O>>, r: seq<Event<I, O>>, m: map<int, int>, k: nat) {
    && Renumbered(events, r, k)
    && (forall j :: 0 <= j < |events| ==> events[j].id in m && m[events[j].id] == r[j].id)
    && (forall x :: x in m ==> exists j :: 0 <= j < |events| && events[j].id == x)
  }

  method Renumber<I, O>(events: seq<Event<I, O>>) returns (r: seq<Event<I, O>>)
    ensures exists k: nat :: Renumbered(events, r, k)
  {
    r := [];
    var m: map<int, int> := map[];
    var id: nat := 0;
    assert Numbering(events[..0], r, m, id);
    for i := 0 to |events|
      invariant Numbering(events[..i], r, m, id)
    {
      hide Numbering;
      var v := events[i];
      assert events[..i + 1] == events[..i] + [v];
      if v.id in m {
        NumberingOld(events[..i], r, m, id, v);
        r := r + [v.(id := m[v.id])];
      } else {
        NumberingNew(events[..i], r, m, id, v);
        r := r + [v.(id := id)];
        m := m[v.id := id];
        id := id + 1;
      }
    }
    assert events[..|events|] == events;
    assert Renumbered(events, r, id);
  }

  lemma NumberingOld<I, O>(events: seq<Event<I, O>>, r: seq<Event<I, O>>, m: map<int, int>, k: nat, v: Event<I, O>)
    requires Numbering(events, r, m, k) && v.id in m
    ensures Numbering(events + [v], r + [v.(id := m[v.id])], m, k)
  {
    var j :| 0 <= j < |events| && events[j].id == v.id;
    RenumberedOld(events, r, k, v, j);
    assert |r| == |events|;
    hide Renumbered;
    OccursLater(events, m, v);
  }

  lemma NumberingNew<I, O>(events: seq<Event<I, O>>, r: seq<Event<I, O>>, m: map<int, int>, k: nat, v: Event<I, O>)
    requires Numbering(events, r, m, k) && v.id !in m
    ensures Numbering(events + [v], r + [v.(id := k)], m[v.id := k], k + 1)
  {
    RenumberedNew(events, r, k, v);
    assert |r| == |events|;
    hide Renumbered;
    OccursLater(events, m, v);
  }

  lemma OccursLater<I, O>(events: seq<Event<I, O>>, m: map<int, int>, v: Event<I, O>)
    requires forall x :: x in m ==> exists j :: 0 <= j < |events| && events[j].id == x
    ensures forall x :: x in m || x == v.id ==> exists j :: 0 <= j < |events + [v]| && (events + [v])[j].id == x
  {
    var more := events + [v];
    assert more[|events|] == v;
    forall x | x in m ensures exists j :: 0 <= j < |more| && more[j].id == x {
      var j :| 0 <= j < |events| && events[j].id == x;
      assert more[j].id == x;
    }
  }

  lemma RenumberedOld<I, O>(events: seq<Event<I, O>>, r: seq<Event<I, O>>, k: nat, v: Event<I, O>, j: nat)
    requires Renumbered(events, r, k) && j < |events| && events[j].id == v.id
    ensures Renumbered(events + [v], r + [v.(id := r[j].id)], k)
  {
    var r' := r + [v.(id := r[j].id)];
    forall x | 0 <= x < k ensures FirstAt(r', x) {
      assert FirstAt(r, x);
      var i :| 0 <= i < |r| && r[i].id == x && forall j :: 0 <= j < i ==> r[j].id < x;
      assert r'[i].id == x;
    }
  }

  lemma RenumberedNew<I, O>(events: seq<Event<I, O>>, r: seq<Event<I, O>>, k: nat, v: Event<I, O>)
    requires Renumbered(events, r, k) && forall j :: 0 <= j < |events| ==> events[j].id != v.id
    ensures Renumbered(events + [v], r + [v.(id := k)], k + 1)
  {
    var r' := r + [v.(id := k)];
    forall x | 0 <= x < k + 1 ensures FirstAt(r', x) {
      if x < k {
        assert FirstAt(r, x);
        var i :| 0 <= i < |r| && r[i].id == x && forall j :: 0 <= j < i ==> r[j].id < x;
        assert r'[i].id == x;
      } else {
        assert r'[|r|].id == x;
      }
    }
  }

  /** Entry `i` is event `i`, at time `i`. */
  ghost predicate Converted<I, O>(events: seq<Event<I, O>>, entries: seq<Entry<I, O>>) {
    && |entries| == |events|
    && forall i :: 0 <= i < |events| ==> ConvertedAt(events[i], i, entries[i])
  }

  ghost predicate ConvertedAt<I, O>(v: Event<I, O>, i: nat, e: Entry<I, O>) {
    && e.id == v.id && e.clientId == v.clientId && e.time == i
    && (v.CallEvent? ==> e.Call? && e.input == v.input)
    && (v.ReturnEvent? ==> e.Return? && e.output == v.output)
  }

  method ConvertEntries<I, O>(events: seq<Event<I, O>>) returns (entries: seq<Entry<I, O>>)
    ensures Converted(events, entries)
  {
    entries := [];
    for i := 0 to |events|
      invariant |entries| == i && forall j :: 0 <= j < i ==> ConvertedAt(events[j], j, entries[j])
    {
      var elem := events[i];
      entries := entries + [if elem.ReturnEvent? then Return(elem.id, elem.output, i, elem.clientId)
                            else Call(elem.id, elem.input, i, elem.clientId)];
    }
  }

  // ---------------------------------------------------------------------------------
  // Renumbered paired events make a well-formed entry list

  /** A one-to-one map has as many values as keys. */
  lemma {:induction false} InjectiveSize(number: map<nat, nat>)
    requires forall i, j :: i in number && j in number && number[i] == number[j] ==> i == j
    ensures |number.Keys| == |number.Values|
    decreases |number|
  {
    if number.Keys != {} {
      var i :| i in number;
      var rest := number - {i};
      assert rest.Keys == number.Keys - {i};
      assert rest.Values == number.Values - {number[i]} by {
        forall x | x in number.Values - {number[i]} ensures x in rest.Values {
          var j :| j in number && number[j] == x;
          assert j in rest && rest[j] == x;
        }
      }
      InjectiveSize(rest);
    }
  }

  ghost function Positions<I, O>(r: seq<Event<I, O>>, calls: bool): set<nat> {
    set i: nat | i < |r| && r[i].CallEvent? == calls
  }

  ghost predicate HasKind<I, O>(r: seq<Event<I, O>>, calls: bool, x: nat) {
    exists i: nat :: i < |r| && r[i].CallEvent? == calls && r[i].id == x
  }

  lemma EachKindOccurs<I, O>(events: seq<Event<I, O>>, r: seq<Event<I, O>>, k: nat, calls: bool, x: nat)
    requires Paired(events) && Renumbered(events, r, k) && x < k
    ensures HasKind(r, calls, x)
  {
    assert FirstAt(r, x);
    var i: nat :| i < |r| && r[i].id == x;
    assert HasPartner(events, i);
    var j: nat :| j < |events| && j != i && events[j].id == events[i].id;
    assert r[i] == events[i].(id := r[i].id) && r[j] == events[j].(id := r[j].id);
    assert r[j].id == x && r[i].CallEvent? == !r[j].CallEvent?;
  }

  /** Each kind of event occurs once per id. */
  lemma OnePerId<I, O>(events: seq<Event<I, O>>, r: seq<Event<I, O>>, k: nat, calls: bool)
    requires Paired(events) && Renumbered(events, r, k)
    ensures |Positions(r, calls)| == k
  {
    var a := Positions(r, calls);
    var number: map<nat, nat> := map i | i in a :: r[i].id;
    forall x: nat | x < k ensures x in number.Values {
      EachKindOccurs(events, r, k, calls, x);
      var i: nat :| i < |r| && r[i].CallEvent? == calls && r[i].id == x;
      assert i in number && number[i] == x;
    }
    assert number.Values == AllIds(k);
    forall i, j | i in number && j in number && number[i] == number[j] ensures i == j {
      assert r[i] == events[i].(id := r[i].id) && r[j] == events[j].(id := r[j].id);
      assert events[i].id == events[j].id;
    }
    InjectiveSize(number);
    AllIdsSize(k);
    assert number.Keys == a;
  }

  lemma BothKinds<I, O>(r: seq<Event<I, O>>)
    ensures |Positions(r, true)| + |Positions(r, false)| == |r|
  {
    AllIdsSize(|r|);
    assert Positions(r, true) + Positions(r, false) == AllIds(|r|);
    assert Positions(r, true) * Positions(r, false) == {};
  }

  /** Whatever ids the caller used, paired events reach the search as a well-formed list. */
  lemma EventsWellFormed<I, O>(events: seq<Event<I, O>>, r: seq<Event<I, O>>, k: nat, entries: seq<Entry<I, O>>)
    requires Paired(events) && Renumbered(events, r, k)
    requires Converted(r, entries)
    ensures WellFormed(entries) && |entries| == 2 * k
  {
    OnePerId(events, r, k, true);
    OnePerId(events, r, k, false);
    BothKinds(r);
    forall id: nat | id < k ensures Occurs(entries, id) {
      EachKindOccurs(events, r, k, true, id);
      EachKindOccurs(events, r, k, false, id);
      var i: nat :| i < |r| && r[i].CallEvent? == true && r[i].id == id;
      var j: nat :| j < |r| && r[j].CallEvent? == false && r[j].id == id;
      assert IsCall(entries, id, i) && IsReturn(entries, id, j);
    }
    forall i, j | 0 <= i < j < |entries| && entries[i].id == entries[j].id
      ensures entries[i].Call? != entries[j].Call?
    {
      assert ConvertedAt(r[i], i, entries[i]) && ConvertedAt(r[j], j, entries[j]);
      assert r[i].id == r[j].id;
    }
  }
}
