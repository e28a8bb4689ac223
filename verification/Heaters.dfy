/** The limit on concurrently heating extruders (software/klipper/extras/heaters.py).

    At most `limit` extruders are tracked as heating; further requests wait in a queue that a
    timer serves once a second.  A raised error keeps whatever was changed before it. */
module Heaters {

  const INACTIVE_DELTA: real := 5.0

  datatype Heater = Heater(target: real, lastTemp: real, minTemp: real, maxTemp: real)

  datatype Entry = Entry(name: string, temp: real)

  datatype State = State(active: seq<string>, pending: seq<Entry>, heaters: map<string, Heater>)

  // The state an operation leaves, and whether it returned normally.
  datatype Outcome = Outcome(state: State, ok: bool)

  predicate IsExtruder(name: string) {
    "extruder" <= name
  }

  // ---------- the operations on values ----------

  predicate Accepts(h: Heater, degrees: real) {
    degrees == 0.0 || h.minTemp <= degrees <= h.maxTemp
  }

  function SetTarget(s: State, name: string, degrees: real): Outcome
    requires name in s.heaters
  {
    var h := s.heaters[name];
    if Accepts(h, degrees) then Outcome(s.(heaters := s.heaters[name := h.(target := degrees)]), true)
    else Outcome(s, false)
  }

  function Upsert(pending: seq<Entry>, e: Entry): seq<Entry> {
    if pending == [] then [e]
    else if pending[0].name == e.name then [e] + pending[1..]
    else [pending[0]] + Upsert(pending[1..], e)
  }

  function Without(pending: seq<Entry>, name: string): seq<Entry> {
    if pending == [] then []
    else (if pending[0].name == name then [] else [pending[0]]) + Without(pending[1..], name)
  }

  // list.remove: the first occurrence only
  function RemoveFirst(active: seq<string>, name: string): seq<string> {
    if active == [] then []
    else if active[0] == name then active[1..]
    else [active[0]] + RemoveFirst(active[1..], name)
  }

  predicate StillHeating(heaters: map<string, Heater>, name: string) {
    name in heaters && heaters[name].lastTemp < heaters[name].target - INACTIVE_DELTA
  }

  function Heating(heaters: map<string, Heater>, active: seq<string>): (r: seq<string>)
    ensures |r| <= |active|
  {
    if active == [] then []
    else (if StillHeating(heaters, active[0]) then [active[0]] else []) + Heating(heaters, active[1..])
  }

  predicate Known(s: State) {
    forall e :: e in s.pending ==> e.name in s.heaters
  }

  // Start queued heaters while slots are free.
  function StartPending(s: State, limit: nat): Outcome
    requires Known(s)
    decreases |s.pending|
  {
    if s.pending == [] || |s.active| >= limit then Outcome(s, true)
    else
      var e := s.pending[0];
      assert e in s.pending;
      var popped := SetTarget(s.(active := s.active + [e.name], pending := s.pending[1..]), e.name, e.temp);
      if popped.ok then StartPending(popped.state, limit) else popped
  }

  function Tick(s: State, limit: nat): Outcome
    requires Known(s)
  {
    StartPending(s.(active := Heating(s.heaters, s.active)), limit)
  }

  function ApplyRequest(s: State, limit: nat, name: string, temp: real): Outcome
    requires name in s.heaters
  {
    if !IsExtruder(name) then SetTarget(s, name, temp)
    else if temp > 0.0 then
      if name in s.active then SetTarget(s, name, temp)
      else if |s.active| < limit then SetTarget(s.(active := s.active + [name]), name, temp)
      else Outcome(s.(pending := Upsert(s.pending, Entry(name, temp))), true)
    else SetTarget(s.(active := RemoveFirst(s.active, name), pending := Without(s.pending, name)), name, temp)
  }

  function TurnOff(s: State): State {
    State([], [], map name | name in s.heaters :: s.heaters[name].(target := 0.0))
  }

  // ---------- the class ----------

  class PrinterHeaters {
    const limit: nat
    var active: seq<string>
    var pending: seq<Entry>
    var heaters: map<string, Heater>

    constructor (limit: nat, heaters: map<string, Heater>)
      ensures this.limit == limit && View() == State([], [], heaters)
    {
      this.limit, this.heaters, active, pending := limit, heaters, [], [];
    }

    ghost function View(): State
      reads this
    {
      State(active, pending, heaters)
    }

    // Heater.set_temp
    method SetTemp(name: string, degrees: real) returns (ok: bool)
      requires name in heaters
      modifies this`heaters
      ensures Outcome(View(), ok) == SetTarget(old(View()), name, degrees)
    {
      var h := heaters[name];
      if degrees != 0.0 && (degrees < h.minTemp || degrees > h.maxTemp) {
        return false;
      }
      heaters := heaters[name := h.(target := degrees)];
      return true;
    }

    method UpsertPendingHeater(name: string, temp: real)
      modifies this`pending
      ensures pending == Upsert(old(pending), Entry(name, temp))
    {
      for i := 0 to |pending|
        invariant pending == old(pending)
        invariant forall j :: 0 <= j < i ==> pending[j].name != name
      {
        if pending[i].name == name {
          UpsertAt(pending, i, Entry(name, temp));
          pending := pending[i := Entry(name, temp)];
          return;
        }
      }
      UpsertAbsent(pending, Entry(name, temp));
      pending := pending + [Entry(name, temp)];
    }

    method CheckHeaterQueue() returns (ok: bool)
      requires Known(View())
      modifies this
      ensures Outcome(View(), ok) == Tick(old(View()), limit)
    {
      active := Heating(heaters, active);
      while |pending| > 0 && |active| < limit
        invariant Known(View())
        invariant StartPending(View(), limit) == Tick(old(View()), limit)
        decreases |pending|
      {
        var e := pending[0];
        assert e in pending;
        pending := pending[1..];
        active := active + [e.name];
        ok := SetTemp(e.name, e.temp);
        if !ok {
          return;
        }
      }
      ok := true;
    }

    method SetTemperature(name: string, temp: real) returns (ok: bool)
      requires name in heaters
      modifies this
      ensures Outcome(View(), ok) == ApplyRequest(old(View()), limit, name, temp)
    {
      if !IsExtruder(name) {
        ok := SetTemp(name, temp);
        return;
      }
      if temp > 0.0 {
        if name in active {
          ok := SetTemp(name, temp);
          return;
        }
        if |active| < limit {
          active := active + [name];
          ok := SetTemp(name, temp);
        } else {
          UpsertPendingHeater(name, temp);
          ok := true;
        }
      } else {
        if name in active {
          active := RemoveFirst(active, name);
        } else {
          RemoveAbsent(active, name);
        }
        pending := Without(pending, name);
        ok := SetTemp(name, temp);
      }
    }

    method TurnOffAllHeaters()
      modifies this
      ensures View() == TurnOff(old(View()))
    {
      active := [];
      pending := [];
      var left := heaters.Keys;
      while left != {}
        invariant left <= heaters.Keys == old(heaters).Keys
        invariant active == [] && pending == []
        invariant forall n :: n in heaters ==>
                    heaters[n] == if n in left then old(heaters)[n] else old(heaters)[n].(target := 0.0)
        decreases left
      {
        var name :| name in left;
        var _ := SetTemp(name, 0.0);
        left := left - {name};
      }
    }
  }

  lemma {:induction false} RemoveAbsent(active: seq<string>, name: string)
    requires name !in active
    ensures RemoveFirst(active, name) == active
  {
    if active != [] {
      RemoveAbsent(active[1..], name);
    }
  }

  lemma {:induction false} UpsertAt(pending: seq<Entry>, i: nat, e: Entry)
    requires i < |pending| && pending[i].name == e.name
    requires forall j :: 0 <= j < i ==> pending[j].name != e.name
    ensures Upsert(pending, e) == pending[i := e]
  {
    if i > 0 {
      UpsertAt(pending[1..], i - 1, e);
      assert [pending[0]] + pending[1..][i - 1 := e] == pending[i := e];
    }
  }

  lemma {:induction false} UpsertAbsent(pending: seq<Entry>, e: Entry)
    requires forall j :: 0 <= j < |pending| ==> pending[j].name != e.name
    ensures Upsert(pending, e) == pending + [e]
  {
    if pending != [] {
      UpsertAbsent(pending[1..], e);
      assert [pending[0]] + (pending[1..] + [e]) == pending + [e];
    }
  }

  // ---------- runs ----------

  datatype Step = Request(name: string, temp: real) | Timer | AllOff | Reading(name: string, temp: real)

  predicate Enabled(s: State, step: Step) {
    match step
    case Request(name, _) => name in s.heaters
    case Timer => Known(s)
    case AllOff => true
    case Reading(name, _) => name in s.heaters
  }

  function Next(s: State, limit: nat, step: Step): Outcome
    requires Enabled(s, step)
  {
    match step
    case Request(name, temp) => ApplyRequest(s, limit, name, temp)
    case Timer => Tick(s, limit)
    case AllOff => Outcome(TurnOff(s), true)
    case Reading(name, temp) => Outcome(s.(heaters := s.heaters[name := s.heaters[name].(lastTemp := temp)]), true)
  }

  predicate Unique(pending: seq<Entry>) {
    forall i, j :: 0 <= i < j < |pending| ==> pending[i].name != pending[j].name
  }

  predicate Inv(s: State, limit: nat) {
    && |s.active| <= limit
    && Unique(s.pending)
    && Known(s)
    && (forall e :: e in s.pending ==> IsExtruder(e.name) && e.temp > 0.0)
  }

  lemma {:induction false} UpsertKeeps(pending: seq<Entry>, e: Entry)
    requires Unique(pending)
    ensures Unique(Upsert(pending, e)) && e in Upsert(pending, e)
    ensures forall x :: x in Upsert(pending, e) <==> x == e || (x in pending && x.name != e.name)
  {
    if pending != [] {
      var first, rest := pending[0], pending[1..];
      assert forall x :: x in pending <==> x == first || x in rest;
      assert Unique(rest);
      assert forall x :: x in rest ==> x.name != first.name;
      if first.name != e.name {
        UpsertKeeps(rest, e);
        var r := Upsert(rest, e);
        assert forall x :: x in r ==> x.name != first.name;
        assert forall x :: x in [first] + r <==> x == first || x in r;
      } else {
        assert forall x :: x in [e] + rest <==> x == e || x in rest;
      }
    }
  }

  lemma {:induction false} WithoutKeeps(pending: seq<Entry>, name: string)
    requires Unique(pending)
    ensures Unique(Without(pending, name))
    ensures forall x :: x in Without(pending, name) <==> x in pending && x.name != name
  {
    hide Unique;
    if pending != [] {
      var first, rest := pending[0], pending[1..];
      UniqueRest(pending);
      WithoutKeeps(rest, name);
      UniqueFirst(first, Without(rest, name));
      assert Without(pending, name) == if first.name == name then Without(rest, name) else [first] + Without(rest, name);
    }
  }

  lemma UniqueRest(pending: seq<Entry>)
    requires pending != [] && Unique(pending)
    ensures Unique(pending[1..]) && forall x :: x in pending[1..] ==> x.name != pending[0].name
    ensures forall x :: x in pending <==> x == pending[0] || x in pending[1..]
  {
  }

  lemma UniqueFirst(first: Entry, rest: seq<Entry>)
    requires Unique(rest) && forall x :: x in rest ==> x.name != first.name
    ensures Unique([first] + rest) && forall x :: x in [first] + rest <==> x == first || x in rest
  {
  }

  lemma {:induction false} RemoveShortens(active: seq<string>, name: string)
    ensures |RemoveFirst(active, name)| <= |active|
    ensures multiset(RemoveFirst(active, name)) == multiset(active) - multiset{name}
  {
    if active != [] {
      assert active == [active[0]] + active[1..];
      if active[0] != name {
        RemoveShortens(active[1..], name);
      }
    }
  }

  predicate InRange(s: State, e: Entry) {
    e.name in s.heaters && Accepts(s.heaters[e.name], e.temp)
  }

  // How many entries at the front have targets in their heaters' ranges.
  function Acceptable(s: State, entries: seq<Entry>): (n: nat)
    ensures n <= |entries|
  {
    if entries != [] && InRange(s, entries[0]) then 1 + Acceptable(s, entries[1..]) else 0
  }

  function Names(entries: seq<Entry>): seq<string> {
    seq(|entries|, i requires 0 <= i < |entries| => entries[i].name)
  }

  function FreeSlots(s: State, limit: nat): nat {
    if |s.active| >= limit then 0 else if limit - |s.active| < |s.pending| then limit - |s.active| else |s.pending|
  }

  // The outcome of serving the first k entries.  Those ahead of the first out-of-range target
  // start in order, each with its own target; that one, if there is one, is taken off the queue
  // and occupies a slot, but raises and starts nothing.  All behind it wait and nothing else changes.
  ghost predicate Served(s: State, k: nat, r: Outcome) {
    && k <= |s.pending|
    && r.state.heaters.Keys == s.heaters.Keys
    && var n := Acceptable(s, s.pending[..k]);
       && (r.ok <==> n == k)
       && var taken := if r.ok then k else n + 1;
          && r.state.active == s.active + Names(s.pending[..taken])
          && r.state.pending == s.pending[taken..]
          && (forall i :: 0 <= i < n ==>
                s.pending[i].name in s.heaters && r.state.heaters[s.pending[i].name].target == s.pending[i].temp)
          && (forall m :: m in s.heaters && m !in Names(s.pending[..n]) ==> r.state.heaters[m] == s.heaters[m])
  }

  // The queue is served from the front, as far as the free slots reach.
  lemma {:induction false} StartServesFront(s: State, limit: nat)
    requires Inv(s, limit)
    ensures Inv(StartPending(s, limit).state, limit)
    ensures Served(s, FreeSlots(s, limit), StartPending(s, limit))
    decreases |s.pending|
  {
    hide Served;
    if s.pending == [] || |s.active| >= limit {
      ServedNone(s, StartPending(s, limit));
    } else {
      var e := s.pending[0];
      StartOne(s, limit);
      var popped := SetTarget(s.(active := s.active + [e.name], pending := s.pending[1..]), e.name, e.temp);
      if popped.ok {
        StartServesFront(popped.state, limit);
        ServedOneMore(s, popped.state, FreeSlots(s, limit), StartPending(popped.state, limit));
      } else {
        ServedFailed(s, FreeSlots(s, limit), popped);
      }
    }
  }

  lemma StartOne(s: State, limit: nat)
    requires Inv(s, limit) && s.pending != [] && |s.active| < limit
    ensures var e := s.pending[0];
            && e.name in s.heaters
            && Inv(SetTarget(s.(active := s.active + [e.name], pending := s.pending[1..]), e.name, e.temp).state, limit)
  {
    assert s.pending[0] in s.pending;
    assert forall e :: e in s.pending[1..] ==> e in s.pending;
  }

  lemma ServedNone(s: State, r: Outcome)
    requires r == Outcome(s, true)
    ensures Served(s, 0, r)
  {
    assert s.active + Names([]) == s.active;
  }

  lemma ServedFailed(s: State, k: nat, r: Outcome)
    requires 0 < k <= |s.pending| && !InRange(s, s.pending[0])
    requires r == Outcome(s.(active := s.active + [s.pending[0].name], pending := s.pending[1..]), false)
    ensures Served(s, k, r)
  {
    assert s.pending[..k][0] == s.pending[0];
    assert Names(s.pending[..1]) == [s.pending[0].name];
  }

  // Serving one entry and then k - 1 more is serving k.
  lemma ServedOneMore(s: State, t: State, k: nat, r: Outcome)
    requires 0 < k <= |s.pending| && Unique(s.pending) && InRange(s, s.pending[0])
    requires var e := s.pending[0];
             t == State(s.active + [e.name], s.pending[1..], s.heaters[e.name := s.heaters[e.name].(target := e.temp)])
    requires Served(t, k - 1, r)
    ensures Served(s, k, r)
  {
    hide Acceptable, Names;
    var e, rest, front := s.pending[0], t.pending[..k - 1], s.pending[..k];
    FrontAcceptable(s, t, k);
    var n := Acceptable(s, front);
    var taken := if r.ok then k else n + 1;
    NamesFirst(s.pending, taken);
    NamesFirst(s.pending, n);
    assert t.pending[taken - 1..] == s.pending[taken..];
    assert t.active + Names(t.pending[..taken - 1]) == s.active + Names(s.pending[..taken]);
    NotAgain(s.pending, n);
    forall i | 0 <= i < n
      ensures s.pending[i].name in s.heaters && r.state.heaters[s.pending[i].name].target == s.pending[i].temp
    {
      if i > 0 {
        assert t.pending[i - 1] == s.pending[i];
      }
    }
  }

  lemma NamesFirst(pending: seq<Entry>, n: nat)
    requires 0 < n <= |pending|
    ensures Names(pending[..n]) == [pending[0].name] + Names(pending[1..][..n - 1])
  {
  }

  // The first entry's heater is not among the next.
  lemma NotAgain(pending: seq<Entry>, n: nat)
    requires 0 < n <= |pending| && Unique(pending)
    ensures pending[0].name !in Names(pending[1..][..n - 1])
  {
    var rest := pending[1..][..n - 1];
    forall i | 0 <= i < |rest| ensures rest[i].name != pending[0].name {
      assert rest[i] == pending[i + 1];
    }
  }

  // Nothing but targets and readings differs.
  predicate SameLimits(s: State, t: State) {
    && s.heaters.Keys == t.heaters.Keys
    && forall n :: n in s.heaters ==>
         s.heaters[n].minTemp == t.heaters[n].minTemp && s.heaters[n].maxTemp == t.heaters[n].maxTemp
  }

  lemma SameInRange(s: State, t: State, e: Entry)
    requires SameLimits(s, t)
    ensures InRange(s, e) == InRange(t, e)
  {
  }

  lemma {:induction false} SameAcceptable(s: State, t: State, entries: seq<Entry>)
    requires SameLimits(s, t)
    ensures Acceptable(s, entries) == Acceptable(t, entries)
  {
    hide SameLimits, InRange;
    if entries != [] {
      SameInRange(s, t, entries[0]);
      SameAcceptable(s, t, entries[1..]);
    }
  }

  lemma FrontAcceptable(s: State, t: State, k: nat)
    requires 0 < k <= |s.pending| && InRange(s, s.pending[0]) && t.pending == s.pending[1..]
    requires var e := s.pending[0]; t.heaters == s.heaters[e.name := s.heaters[e.name].(target := e.temp)]
    ensures Acceptable(s, s.pending[..k]) == 1 + Acceptable(t, t.pending[..k - 1])
  {
    assert s.pending[..k][1..] == t.pending[..k - 1];
    SameAcceptable(s, t, t.pending[..k - 1]);
  }

  lemma RequestKeepsInv(s: State, limit: nat, name: string, temp: real)
    requires Inv(s, limit) && name in s.heaters
    ensures Inv(ApplyRequest(s, limit, name, temp).state, limit)
  {
    hide Upsert, Without, RemoveFirst;
    UpsertKeeps(s.pending, Entry(name, temp));
    WithoutKeeps(s.pending, name);
    RemoveShortens(s.active, name);
  }

  lemma StepKeepsInv(s: State, limit: nat, step: Step)
    requires Inv(s, limit) && Enabled(s, step)
    ensures Inv(Next(s, limit, step).state, limit)
  {
    match step
    case Request(name, temp) => RequestKeepsInv(s, limit, name, temp);
    case Timer => StartServesFront(s.(active := Heating(s.heaters, s.active)), limit);
    case AllOff =>
    case Reading(_, _) =>
  }

  predicate Legal(s: State, limit: nat, steps: seq<Step>)
    decreases |steps|
  {
    steps == [] || (Enabled(s, steps[0]) && Legal(Next(s, limit, steps[0]).state, limit, steps[1..]))
  }

  function After(s: State, limit: nat, steps: seq<Step>): State
    requires Legal(s, limit, steps)
    decreases |steps|
  {
    if steps == [] then s else After(Next(s, limit, steps[0]).state, limit, steps[1..])
  }

  // Over every run from the start the slots are never exceeded and no heater waits twice.
  lemma {:induction false} RunKeepsInv(s: State, limit: nat, steps: seq<Step>)
    requires Inv(s, limit) && Legal(s, limit, steps)
    ensures Inv(After(s, limit, steps), limit)
    decreases |steps|
  {
    if steps != [] {
      StepKeepsInv(s, limit, steps[0]);
      RunKeepsInv(Next(s, limit, steps[0]).state, limit, steps[1..]);
    }
  }

  // After a tick that returns, either nothing waits or every slot is taken.
  lemma TickFillsSlots(s: State, limit: nat)
    requires Inv(s, limit) && Tick(s, limit).ok
    ensures var t := Tick(s, limit).state;
            t.pending == [] || |t.active| == limit
  {
    StartServesFront(s.(active := Heating(s.heaters, s.active)), limit);
  }

  // ---------- keeping a slot ----------

  // Whether a heater's reading is still more than 5 degrees below its target.
  predicate Cold(s: State, name: string) {
    name in s.heaters && s.heaters[name].lastTemp < s.heaters[name].target - 5.0
  }

  ghost predicate Places(indices: seq<nat>, n: nat) {
    && (forall k :: 0 <= k < |indices| ==> indices[k] < n)
    && forall j, k :: 0 <= j < k < |indices| ==> indices[j] < indices[k]
  }

  // A tick keeps, in their order, exactly the slots of the heaters that are still cold, and
  // hands the others to the front of the queue.
  lemma TickKeepsCold(s: State, limit: nat) returns (kept: seq<nat>)
    requires Inv(s, limit)
    ensures Places(kept, |s.active|) && forall i: nat :: i < |s.active| ==> (i in kept <==> Cold(s, s.active[i]))
    ensures var t := Tick(s, limit).state;
            && |kept| <= |t.active|
            && (forall k :: 0 <= k < |kept| ==> t.active[k] == s.active[kept[k]])
            && |t.active| - |kept| == |s.pending| - |t.pending| >= 0
            && forall k :: |kept| <= k < |t.active| ==> t.active[k] == s.pending[k - |kept|].name
  {
    hide Cold, Acceptable, StartPending, Heating, Places;
    kept := HeatingPlaces(s, s.active);
    TickStartsBehind(s, limit);
  }

  lemma TickStartsBehind(s: State, limit: nat)
    requires Inv(s, limit)
    ensures var kept, t := Heating(s.heaters, s.active), Tick(s, limit).state;
            && |kept| <= |t.active| && t.active[..|kept|] == kept
            && |t.active| - |kept| == |s.pending| - |t.pending| >= 0
            && forall k :: |kept| <= k < |t.active| ==> t.active[k] == s.pending[k - |kept|].name
  {
    hide StartPending, Heating, Served, Names;
    var t := s.(active := Heating(s.heaters, s.active));
    StartServesFront(t, limit);
    var taken := ServedLists(t, FreeSlots(t, limit), StartPending(t, limit));
    NamesBehind(t.active, t.pending, taken);
  }

  lemma ServedLists(s: State, k: nat, r: Outcome) returns (taken: nat)
    requires Served(s, k, r)
    ensures Acceptable(s, s.pending[..k]) <= taken <= |s.pending|
    ensures r.state.active == s.active + Names(s.pending[..taken]) && r.state.pending == s.pending[taken..]
  {
    hide Acceptable, Names;
    taken := if r.ok then k else Acceptable(s, s.pending[..k]) + 1;
  }

  lemma NamesBehind(active: seq<string>, pending: seq<Entry>, n: nat)
    requires n <= |pending|
    ensures var all := active + Names(pending[..n]);
            && |all| == |active| + n && all[..|active|] == active && |pending[n..]| == |pending| - n
            && forall j :: |active| <= j < |all| ==> all[j] == pending[j - |active|].name
  {
  }

  lemma {:induction false} HeatingPlaces(s: State, active: seq<string>) returns (kept: seq<nat>)
    ensures Places(kept, |active|) && forall i: nat :: i < |active| ==> (i in kept <==> Cold(s, active[i]))
    ensures |Heating(s.heaters, active)| == |kept|
    ensures forall k :: 0 <= k < |kept| ==> Heating(s.heaters, active)[k] == active[kept[k]]
    decreases |active|
  {
    hide Cold, Heating;
    if active == [] {
      kept := [];
      HeatingNone(s);
    } else {
      var n := |active| - 1;
      kept := HeatingPlaces(s, active[..n]);
      HeatingLast(s, active[..n], active[n]);
      assert active == active[..n] + [active[n]];
      if Cold(s, active[n]) {
        kept := kept + [n];
      }
    }
  }

  lemma HeatingNone(s: State)
    ensures Heating(s.heaters, []) == []
  {
  }

  lemma {:induction false} HeatingLast(s: State, active: seq<string>, name: string)
    ensures Heating(s.heaters, active + [name]) == Heating(s.heaters, active) + if Cold(s, name) then [name] else []
  {
    if active == [] {
      assert [name][1..] == [] && [] + [name] == [name];
    } else {
      assert (active + [name])[1..] == active[1..] + [name];
      HeatingLast(s, active[1..], name);
    }
  }

  // What makes a heater give up its slot.
  predicate GivesUp(s: State, step: Step, name: string) {
    match step
    case Request(n, temp) => n == name && temp <= 0.0
    case Timer => !Cold(s, name)
    case AllOff => true
    case Reading(_, _) => false
  }

  lemma {:induction false} RemoveKeepsOthers(active: seq<string>, name: string, other: string)
    requires other in active && other != name
    ensures other in RemoveFirst(active, name)
  {
    if active[0] != name && other != active[0] {
      RemoveKeepsOthers(active[1..], name, other);
    }
  }

  lemma SlotKept(s: State, limit: nat, step: Step, name: string)
    requires Inv(s, limit) && Enabled(s, step) && name in s.active && !GivesUp(s, step, name)
    ensures name in Next(s, limit, step).state.active
  {
    hide Cold, Tick;
    match step
    case Request(n, temp) =>
      if n != name {
        RemoveKeepsOthers(s.active, n, name);
      }
    case Timer =>
      var kept := TickKeepsCold(s, limit);
      var i :| 0 <= i < |s.active| && s.active[i] == name;
      var k :| 0 <= k < |kept| && kept[k] == i;
      assert Tick(s, limit).state.active[k] == name;
    case AllOff =>
    case Reading(_, _) =>
  }

  lemma {:induction false} AfterNext(s: State, limit: nat, steps: seq<Step>, n: nat)
    requires Legal(s, limit, steps) && n < |steps|
    ensures Legal(s, limit, steps[..n]) && Legal(s, limit, steps[..n + 1])
    ensures var before := After(s, limit, steps[..n]);
            Enabled(before, steps[n]) && After(s, limit, steps[..n + 1]) == Next(before, limit, steps[n]).state
    decreases n
  {
    hide Enabled, Next;
    if n == 0 {
      assert steps[..1][1..] == [] && steps[..0] == [];
    } else {
      var t := Next(s, limit, steps[0]).state;
      AfterNext(t, limit, steps[1..], n - 1);
      assert steps[..n][1..] == steps[1..][..n - 1] && steps[..n + 1][1..] == steps[1..][..n];
    }
  }

  // The heater had a slot after i steps of a run and nothing since made it give it up.
  ghost predicate HeldSince(s: State, limit: nat, steps: seq<Step>, name: string, i: nat) {
    && i <= |steps|
    && (forall j :: i <= j <= |steps| ==> Legal(s, limit, steps[..j]))
    && name in After(s, limit, steps[..i]).active
    && forall j :: i <= j < |steps| ==> !GivesUp(After(s, limit, steps[..j]), steps[j], name)
  }

  // Over every run a heater keeps its slot until it is within 5 degrees of its target when the
  // timer looks, is cancelled, or all are turned off.
  lemma {:induction false} SlotIsKept(s: State, limit: nat, steps: seq<Step>, name: string, i: nat, j: nat)
    requires Inv(s, limit) && Legal(s, limit, steps) && HeldSince(s, limit, steps, name, i) && i <= j <= |steps|
    ensures Legal(s, limit, steps[..j]) && name in After(s, limit, steps[..j]).active
    decreases j
  {
    hide GivesUp, Enabled, Next;
    if i < j {
      SlotIsKept(s, limit, steps, name, i, j - 1);
      AfterNext(s, limit, steps, j - 1);
      RunKeepsInv(s, limit, steps[..j - 1]);
      SlotKept(After(s, limit, steps[..j - 1]), limit, steps[j - 1], name);
    }
  }

  // So at most `limit` extruders are on their way to their targets at any time, whenever each
  // of them began.
  lemma HeatingWithinLimit(s: State, limit: nat, steps: seq<Step>, names: set<string>)
    requires Inv(s, limit) && Legal(s, limit, steps)
    requires forall n :: n in names ==> exists i: nat :: HeldSince(s, limit, steps, n, i)
    ensures |names| <= limit
  {
    hide HeldSince, Next, Enabled;
    RunKeepsInv(s, limit, steps);
    assert steps[..|steps|] == steps;
    var active := After(s, limit, steps).active;
    forall n | n in names ensures n in active {
      var i: nat :| HeldSince(s, limit, steps, n, i);
      HeldRange(s, limit, steps, n, i);
      SlotIsKept(s, limit, steps, n, i, |steps|);
    }
    FewNames(active, names);
  }

  lemma HeldRange(s: State, limit: nat, steps: seq<Step>, name: string, i: nat)
    requires HeldSince(s, limit, steps, name, i)
    ensures i <= |steps|
  {
  }

  lemma {:induction false} FewNames(active: seq<string>, names: set<string>)
    requires forall n :: n in names ==> n in active
    ensures |names| <= |active|
  {
    if active == [] {
      assert names == {};
    } else {
      FewNames(active[1..], names - {active[0]});
      assert names <= (names - {active[0]}) + {active[0]};
    }
  }

  lemma ExtruderNames(name: string)
    ensures IsExtruder(name) <==> |name| >= 8 && name[..8] == "extruder"
  {
  }

  // Any other heater is set at once, whatever waits and whatever heats.
  lemma OthersAtOnce(s: State, limit: nat, name: string, temp: real)
    requires name in s.heaters && (|name| < 8 || name[..8] != "extruder")
    ensures var r, h := Next(s, limit, Request(name, temp)), s.heaters[name];
            && r.ok == (temp == 0.0 || h.minTemp <= temp <= h.maxTemp)
            && r.state == if r.ok then s.(heaters := s.heaters[name := h.(target := temp)]) else s
  {
    ExtruderNames(name);
  }

  // No extruder is given a positive target without having a slot.
  ghost predicate HasSlotFor(s: State, t: State, name: string)
    requires name in s.heaters
  {
    name in t.heaters &&
    (t.heaters[name].target != s.heaters[name].target && t.heaters[name].target > 0.0 ==> name in t.active)
  }

  lemma TargetNeedsSlot(s: State, limit: nat, step: Step, name: string)
    requires Inv(s, limit) && Enabled(s, step) && name in s.heaters
    requires |name| >= 8 && name[..8] == "extruder"
    ensures HasSlotFor(s, Next(s, limit, step).state, name)
  {
    ExtruderNames(name);
    hide IsExtruder, RemoveFirst, Without, Upsert, Tick;
    match step
    case Request(_, _) =>
    case Timer => TickNeedsSlot(s, limit, name);
    case AllOff =>
    case Reading(_, _) =>
  }

  lemma TickNeedsSlot(s: State, limit: nat, name: string)
    requires Inv(s, limit) && name in s.heaters
    ensures HasSlotFor(s, Tick(s, limit).state, name)
  {
    hide IsExtruder, StartPending, Served, Heating, FreeSlots;
    var t := s.(active := Heating(s.heaters, s.active));
    StartServesFront(t, limit);
    ServedHasSlot(t, FreeSlots(t, limit), StartPending(t, limit), name);
  }

  lemma ServedHasSlot(s: State, k: nat, r: Outcome, name: string)
    requires Served(s, k, r) && name in s.heaters
    ensures name in r.state.heaters && (r.state.heaters[name] == s.heaters[name] || name in r.state.active)
  {
    hide Acceptable;
    var n := Acceptable(s, s.pending[..k]);
    var taken := ServedLists(s, k, r);
    NamesBehind(s.active, s.pending, taken);
    if name in Names(s.pending[..n]) {
      var i :| 0 <= i < n && Names(s.pending[..n])[i] == name;
      assert r.state.active[|s.active| + i] == s.pending[i].name;
    }
  }

  // ---------- the fate of a waiting request ----------

  predicate Started(s: State, e: Entry) {
    e.name in s.active && e.name in s.heaters && s.heaters[e.name].target == e.temp
  }

  // How a step ends the wait of an entry: the entry leaves the queue because a newer target
  // takes its place, because it is cancelled, because it starts with its own target, or because
  // the timer raises on its own target.
  predicate Ends(s: State, limit: nat, step: Step, e: Entry)
    requires Enabled(s, step)
  {
    var r := Next(s, limit, step);
    && e !in r.state.pending
    && match step
       case Request(name, temp) => name == e.name && (temp <= 0.0 || (r.ok && Entry(name, temp) in r.state.pending))
       case Timer => Started(r.state, e) || (!r.ok && !InRange(s, e))
       case AllOff => true
       case Reading(_, _) => false
  }

  lemma {:induction false} FirstUnacceptable(s: State, entries: seq<Entry>)
    ensures var n := Acceptable(s, entries);
            && (forall i :: 0 <= i < n ==> InRange(s, entries[i]))
            && (n < |entries| ==> !InRange(s, entries[n]))
  {
    hide InRange;
    if entries != [] && InRange(s, entries[0]) {
      FirstUnacceptable(s, entries[1..]);
    }
  }

  // The n-th entry is out of range and lost; those ahead of it were started with their own
  // targets and those behind it still wait, in order.
  predicate LosesOnly(s: State, after: State, n: nat)
    requires n < |s.pending|
  {
    && !InRange(s, s.pending[n])
    && after.pending == s.pending[n + 1..]
    && forall i :: 0 <= i < n ==> InRange(s, s.pending[i]) && Started(after, s.pending[i])
  }

  // A tick that raises loses the first out-of-range entry and no other.
  lemma RaisedTickLosesOne(s: State, limit: nat)
    requires Inv(s, limit) && !Tick(s, limit).ok
    ensures exists n :: 0 <= n < |s.pending| && LosesOnly(s, Tick(s, limit).state, n)
  {
    hide StartPending, Acceptable, InRange;
    var t := s.(active := Heating(s.heaters, s.active));
    StartServesFront(t, limit);
    var front := s.pending[..FreeSlots(t, limit)];
    var n := Acceptable(t, front);
    FirstUnacceptable(t, front);
    forall i | 0 <= i <= n ensures s.pending[i] == front[i] && InRange(s, front[i]) == InRange(t, front[i]) {
      SameInRange(s, t, front[i]);
    }
    forall i | 0 <= i < n ensures Started(Tick(s, limit).state, s.pending[i]) {
      assert Names(s.pending[..n + 1])[i] == s.pending[i].name;
    }
    assert LosesOnly(s, Tick(s, limit).state, n);
  }

  // A tick has started a waiting entry with its own target, raised on it or left it waiting.
  lemma TickServesOrKeeps(s: State, limit: nat, e: Entry)
    requires Inv(s, limit) && e in s.pending
    ensures var r := Tick(s, limit);
            e in r.state.pending || Started(r.state, e) || (!r.ok && !InRange(s, e))
  {
    hide Tick, Started, InRange;
    var r := Tick(s, limit);
    var i :| 0 <= i < |s.pending| && s.pending[i] == e;
    if r.ok {
      TickStartsFront(s, limit, i);
    } else {
      RaisedTickLosesOne(s, limit);
      var n :| 0 <= n < |s.pending| && LosesOnly(s, r.state, n);
      if i > n {
        assert s.pending[n + 1..][i - n - 1] == e;
      }
    }
  }

  lemma TickStartsFront(s: State, limit: nat, i: nat)
    requires Inv(s, limit) && i < |s.pending| && Tick(s, limit).ok
    ensures var t := Tick(s, limit).state; s.pending[i] in t.pending || Started(t, s.pending[i])
  {
    hide StartPending, Acceptable;
    var t := s.(active := Heating(s.heaters, s.active));
    StartServesFront(t, limit);
    var k := FreeSlots(t, limit);
    if i < k {
      assert Names(s.pending[..k])[i] == s.pending[i].name;
    } else {
      assert s.pending[k..][i - k] == s.pending[i];
    }
  }

  lemma WaitOrEnd(s: State, limit: nat, step: Step, e: Entry)
    requires Inv(s, limit) && Enabled(s, step) && e in s.pending
    ensures e in Next(s, limit, step).state.pending || Ends(s, limit, step, e)
  {
    hide Tick, Upsert, Without;
    match step
    case Request(name, temp) =>
      UpsertKeeps(s.pending, Entry(name, temp));
      WithoutKeeps(s.pending, name);
    case Timer => TickServesOrKeeps(s, limit, e);
    case AllOff =>
    case Reading(_, _) =>
  }

  // No request is lost: over any run it is still waiting, or some step took it off the queue for
  // one of these reasons.
  lemma {:induction false} RequestIsNotLost(s: State, limit: nat, steps: seq<Step>, e: Entry)
    requires Inv(s, limit) && Legal(s, limit, steps) && e in s.pending
    ensures e in After(s, limit, steps).pending || exists i :: 0 <= i < |steps| && EndsAt(s, limit, steps, e, i)
    decreases |steps|
  {
    hide Ends;
    if steps != [] {
      WaitOrEnd(s, limit, steps[0], e);
      StepKeepsInv(s, limit, steps[0]);
      var t := Next(s, limit, steps[0]).state;
      if e in t.pending {
        RequestIsNotLost(t, limit, steps[1..], e);
        if e !in After(s, limit, steps).pending {
          var i :| 0 <= i < |steps[1..]| && EndsAt(t, limit, steps[1..], e, i);
          assert steps[..i + 1][0] == steps[0] && steps[..i + 1][1..] == steps[1..][..i];
          assert After(s, limit, steps[..i + 1]) == After(t, limit, steps[1..][..i]);
          assert EndsAt(s, limit, steps, e, i + 1);
        }
      } else {
        assert steps[..0] == [];
        assert EndsAt(s, limit, steps, e, 0);
      }
    }
  }

  // The entry was still waiting before step i, which ended its wait.
  predicate EndsAt(s: State, limit: nat, steps: seq<Step>, e: Entry, i: nat)
    requires i < |steps|
  {
    && Legal(s, limit, steps[..i])
    && var before := After(s, limit, steps[..i]);
       e in before.pending && Enabled(before, steps[i]) && Ends(before, limit, steps[i], e)
  }

  predicate Waits(pending: seq<Entry>, name: string) {
    pending != [] && (pending[0].name == name || Waits(pending[1..], name))
  }

  // a waits ahead of b
  predicate Before(pending: seq<Entry>, a: string, b: string) {
    pending != [] && ((pending[0].name == a && Waits(pending[1..], b)) || Before(pending[1..], a, b))
  }

  lemma {:induction false} UpsertOrder(pending: seq<Entry>, e: Entry, a: string, b: string)
    ensures Waits(pending, b) ==> Waits(Upsert(pending, e), b)
    ensures Before(pending, a, b) ==> Before(Upsert(pending, e), a, b)
  {
    if pending != [] && pending[0].name != e.name {
      UpsertOrder(pending[1..], e, a, b);
      assert Upsert(pending, e)[1..] == Upsert(pending[1..], e);
    }
  }

  lemma {:induction false} WithoutOrder(pending: seq<Entry>, name: string, a: string, b: string)
    requires a != name && b != name
    ensures Waits(pending, b) ==> Waits(Without(pending, name), b)
    ensures Before(pending, a, b) ==> Before(Without(pending, name), a, b)
  {
    if pending != [] {
      WithoutOrder(pending[1..], name, a, b);
      if pending[0].name == name {
        assert Without(pending, name) == Without(pending[1..], name);
      } else {
        assert Without(pending, name)[1..] == Without(pending[1..], name);
      }
    }
  }

  lemma {:induction false} WithoutGone(pending: seq<Entry>, name: string)
    ensures !Waits(Without(pending, name), name)
  {
    if pending != [] {
      WithoutGone(pending[1..], name);
      if pending[0].name == name {
        assert Without(pending, name) == Without(pending[1..], name);
      } else {
        assert Without(pending, name)[1..] == Without(pending[1..], name);
      }
    }
  }

  lemma {:induction false} AbsentNeverWaits(pending: seq<Entry>, name: string)
    requires forall i :: 0 <= i < |pending| ==> pending[i].name != name
    ensures !Waits(pending, name)
  {
    if pending != [] {
      AbsentNeverWaits(pending[1..], name);
    }
  }

  lemma {:induction false} BeforeWaits(pending: seq<Entry>, a: string, b: string)
    requires Before(pending, a, b)
    ensures Waits(pending, b)
  {
    if Before(pending[1..], a, b) {
      BeforeWaits(pending[1..], a, b);
    }
  }

  // Serving the front keeps the order of the rest.
  lemma {:induction false} SuffixOrder(pending: seq<Entry>, k: nat, a: string, b: string)
    requires k <= |pending| && Unique(pending) && Before(pending, a, b) && Waits(pending[k..], a)
    ensures Before(pending[k..], a, b)
  {
    if k > 0 {
      assert pending[1..][k - 1..] == pending[k..];
      AbsentNeverWaits(pending[k..], pending[0].name);
      SuffixOrder(pending[1..], k - 1, a, b);
    }
  }

  // Waiting heaters never overtake one another: whatever a step does, two that both still
  // wait keep their order, and a tick starts none while one ahead of it goes on waiting.
  lemma StepKeepsOrder(s: State, limit: nat, step: Step, a: string, b: string)
    requires Inv(s, limit) && Enabled(s, step) && Before(s.pending, a, b)
    ensures var q := Next(s, limit, step).state.pending;
            && (Waits(q, a) && Waits(q, b) ==> Before(q, a, b))
            && (step == Timer && Waits(q, a) ==> Waits(q, b))
  {
    hide Upsert, Without, RemoveFirst, Heating, StartPending, Waits, Before, Acceptable, Names;
    var q := Next(s, limit, step).state.pending;
    match step
    case Request(name, temp) =>
      UpsertOrder(s.pending, Entry(name, temp), a, b);
      WithoutGone(s.pending, name);
      if a != name && b != name {
        WithoutOrder(s.pending, name, a, b);
      }
    case Timer =>
      var t := s.(active := Heating(s.heaters, s.active));
      StartServesFront(t, limit);
      var taken := |s.pending| - |q|;
      assert q == s.pending[taken..];
      if Waits(q, a) {
        SuffixOrder(s.pending, taken, a, b);
        BeforeWaits(q, a, b);
      }
    case AllOff => NoneWaits(a);
    case Reading(_, _) =>
  }

  lemma NoneWaits(name: string)
    ensures !Waits([], name)
  {
  }

  // ---------- which target is honoured ----------

  function Lookup(pending: seq<Entry>, name: string, default: real): real {
    if pending == [] then default
    else if pending[0].name == name then pending[0].temp
    else Lookup(pending[1..], name, default)
  }

  // The target a heater is heading for: the one it waits with, or else the one it has.
  function Intent(s: State, name: string): real
    requires name in s.heaters
  {
    Lookup(s.pending, name, s.heaters[name].target)
  }

  lemma {:induction false} LookupUpsert(pending: seq<Entry>, e: Entry, default: real)
    ensures Lookup(Upsert(pending, e), e.name, default) == e.temp
  {
    if pending != [] && pending[0].name != e.name {
      LookupUpsert(pending[1..], e, default);
      assert Upsert(pending, e)[1..] == Upsert(pending[1..], e);
    }
  }

  lemma {:induction false} LookupWithout(pending: seq<Entry>, name: string, default: real)
    ensures Lookup(Without(pending, name), name, default) == default
  {
    if pending != [] {
      LookupWithout(pending[1..], name, default);
      if pending[0].name != name {
        assert Without(pending, name)[1..] == Without(pending[1..], name);
      } else {
        assert Without(pending, name) == Without(pending[1..], name);
      }
    }
  }

  // A request decides the heater's target unless it is applied at once while an entry of the
  // same heater with another target is still waiting; that older entry then wins.
  lemma LatestRequestWinsIff(s: State, limit: nat, name: string, temp: real)
    requires Inv(s, limit) && name in s.heaters && ApplyRequest(s, limit, name, temp).ok
    ensures Intent(ApplyRequest(s, limit, name, temp).state, name) == temp
            <==> temp <= 0.0 || !(name in s.active || |s.active| < limit) || Lookup(s.pending, name, temp) == temp
  {
    LookupUpsert(s.pending, Entry(name, temp), s.heaters[name].target);
    LookupWithout(s.pending, name, temp);
    if !IsExtruder(name) {
      NotWaiting(s.pending, name, temp);
    }
  }

  lemma {:induction false} NotWaiting(pending: seq<Entry>, name: string, default: real)
    requires forall e :: e in pending ==> e.name != name
    ensures Lookup(pending, name, default) == default
  {
    if pending != [] {
      assert pending[0] in pending;
      NotWaiting(pending[1..], name, default);
    }
  }

  // The older target does come back: once the stale entry is first and a slot is free, the
  // next tick overwrites the newer target with it.
  lemma StaleEntryOverwrites(s: State, limit: nat, e: Entry)
    requires Inv(s, limit) && s.pending != [] && s.pending[0] == e
    requires |Heating(s.heaters, s.active)| < limit && Tick(s, limit).ok
    ensures var t := Tick(s, limit).state;
            e.name in t.heaters && t.heaters[e.name].target == e.temp
  {
    StartServesFront(s.(active := Heating(s.heaters, s.active)), limit);
    assert e in s.pending;
  }

  // A run from the start in which this happens, with one slot.  While a heats, b is asked to
  // heat to x and has to wait.  Once a is cancelled, b is asked for y and gets it at once; when
  // b has reached y, the timer sets it back to x.
  function StaleRun(a: string, b: string, t: real, x: real, y: real): (steps: seq<Step>)
    ensures |steps| == 6
  {
    [Request(a, t), Request(b, x), Request(a, 0.0), Request(b, y), Reading(b, y), Timer]
  }

  lemma StaleTargetReturns(heaters: map<string, Heater>, a: string, b: string, t: real, x: real, y: real)
    requires a != b && IsExtruder(a) && IsExtruder(b) && a in heaters && b in heaters && t > 0.0 && x > 0.0 && y > 0.0
    requires Accepts(heaters[a], t) && Accepts(heaters[b], x) && Accepts(heaters[b], y) && x != y
    ensures var start, steps := State([], [], heaters), StaleRun(a, b, t, x, y);
            && Inv(start, 1) && Legal(start, 1, steps) && Legal(start, 1, steps[..4])
            && Intended(After(start, 1, steps[..4]), b, y) && Intended(After(start, 1, steps), b, x)
  {
    hide Legal, After, IsExtruder, Heating;
    var withA := heaters[a := heaters[a].(target := t)];
    var noA := heaters[a := heaters[a].(target := 0.0)];
    var s0, s1 := State([], [], heaters), State([a], [], withA);
    var s2, s3 := State([a], [Entry(b, x)], withA), State([], [Entry(b, x)], noA);
    var s4 := State([b], [Entry(b, x)], noA[b := noA[b].(target := y)]);
    var s5 := s4.(heaters := noA[b := noA[b].(target := y, lastTemp := y)]);
    var s6 := State([b], [], noA[b := noA[b].(target := x, lastTemp := y)]);
    var steps, states := StaleRun(a, b, t, x, y), [s0, s1, s2, s3, s4, s5, s6];
    StaleRequests(s0, a, b, t, x, y);
    StaleTick(s5, s6, b, x);
    RunThrough(s0, 1, steps, states, 4);
    RunThrough(s0, 1, steps, states, 6);
    assert steps[..6] == steps;
  }

  predicate Intended(s: State, name: string, temp: real) {
    name in s.heaters && s.heaters[name].target == temp
  }

  lemma StaleRequests(s0: State, a: string, b: string, t: real, x: real, y: real)
    requires s0.active == [] && s0.pending == [] && a != b && IsExtruder(a) && IsExtruder(b)
    requires a in s0.heaters && b in s0.heaters && t > 0.0 && x > 0.0 && y > 0.0
    requires Accepts(s0.heaters[a], t) && Accepts(s0.heaters[b], y)
    ensures var h := s0.heaters;
            var withA, noA := h[a := h[a].(target := t)], h[a := h[a].(target := 0.0)];
            && Next(s0, 1, Request(a, t)).state == State([a], [], withA)
            && Next(State([a], [], withA), 1, Request(b, x)).state == State([a], [Entry(b, x)], withA)
            && Next(State([a], [Entry(b, x)], withA), 1, Request(a, 0.0)).state == State([], [Entry(b, x)], noA)
            && Next(State([], [Entry(b, x)], noA), 1, Request(b, y)).state
               == State([b], [Entry(b, x)], noA[b := noA[b].(target := y)])
  {
    hide IsExtruder;
    var h, wait := s0.heaters, [Entry(b, x)];
    var withA, noA := h[a := h[a].(target := t)], h[a := h[a].(target := 0.0)];
    assert withA[a := withA[a].(target := 0.0)] == noA;
    assert wait[1..] == [] && [a][1..] == [] && [] + [a] == [a] && [] + [b] == [b];
    assert Without(wait, a) == wait && RemoveFirst([a], a) == [] && Upsert([], Entry(b, x)) == wait;
  }

  lemma StaleTick(s: State, t: State, b: string, x: real)
    requires s.active == [b] && s.pending == [Entry(b, x)] && b in s.heaters && Accepts(s.heaters[b], x)
    requires s.heaters[b].lastTemp == s.heaters[b].target
    requires t == State([b], [], s.heaters[b := s.heaters[b].(target := x)])
    ensures Known(s) && Next(s, 1, Timer).state == t
  {
    assert [b][1..] == [] && [Entry(b, x)][1..] == [] && [] + [b] == [b];
    assert Heating(s.heaters, [b]) == [];
    assert StartPending(t, 1) == Outcome(t, true);
  }

  // A run leads through the given states.
  lemma {:induction false} RunThrough(s: State, limit: nat, steps: seq<Step>, states: seq<State>, n: nat)
    requires |states| == |steps| + 1 && states[0] == s && n <= |steps|
    requires forall i :: 0 <= i < |steps| ==>
               Enabled(states[i], steps[i]) && Next(states[i], limit, steps[i]).state == states[i + 1]
    ensures Legal(s, limit, steps[..n]) && After(s, limit, steps[..n]) == states[n]
    decreases n
  {
    hide Enabled, Next;
    if n > 0 {
      RunThrough(states[1], limit, steps[1..], states[1..], n - 1);
      assert steps[..n][1..] == steps[1..][..n - 1];
    }
  }

  // Cancelling always takes the heater out of the queue and clears its target; it frees the
  // heater's slot exactly when the heater held no more than one.
  lemma CancelFreesSlotIff(s: State, limit: nat, name: string)
    requires Inv(s, limit) && name in s.heaters && IsExtruder(name)
    ensures var r := ApplyRequest(s, limit, name, 0.0);
            && r.ok && r.state.heaters[name].target == 0.0
            && (forall e :: e in r.state.pending ==> e.name != name)
            && (name !in r.state.active <==> multiset(s.active)[name] <= 1)
  {
    WithoutKeeps(s.pending, name);
    RemoveShortens(s.active, name);
    assert name in RemoveFirst(s.active, name) <==> name in multiset(RemoveFirst(s.active, name));
  }
}
