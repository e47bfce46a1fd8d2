/** Enrollment grants: reading a grant and marking it consumed are two
    separate statements, and any number of callers interleave between them. */
module GrantRuns {
  import opened Maps
  import opened Results

  datatype Grant = Grant(expiresAt: int, consumedAt: Option<int>)

  datatype Caller = Idle | Checked(id: string, now: int)

  /** `spent` is the history of successful consumptions. */
  datatype State = State(grants: map<string, Grant>, callers: map<nat, Caller>, spent: seq<(string, int)>)

  const INITIAL := State(map[], map[], [])

  datatype Event =
    | Issue(id: string, expiresAt: int)
    | Read(caller: nat, id: string, now: int)
    | Mark(caller: nat)

  predicate Usable(s: State, id: string, now: int) {
    id in s.grants && s.grants[id].consumedAt.None? && now < s.grants[id].expiresAt
  }

  /** The guarded update: only a grant not yet consumed is marked. */
  function Marked(s: State, caller: nat, id: string, now: int): State {
    var left := s.(callers := s.callers[caller := Idle]);
    if id in s.grants && s.grants[id].consumedAt.None? then
      left.(grants := s.grants[id := s.grants[id].(consumedAt := Some(now))], spent := s.spent + [(id, now)])
    else left
  }

  function After(s: State, e: Event): State {
    match e
    case Issue(id, expiresAt) =>
      if id in s.grants then s else s.(grants := s.grants[id := Grant(expiresAt, None)])
    case Read(caller, id, now) =>
      if Usable(s, id, now) then s.(callers := s.callers[caller := Checked(id, now)]) else s
    case Mark(caller) =>
      if caller in s.callers && s.callers[caller].Checked?
      then Marked(s, caller, s.callers[caller].id, s.callers[caller].now)
      else s
  }

  function Run(s: State, events: seq<Event>): State
    decreases |events|
  {
    if events == [] then s else Run(After(s, events[0]), events[1..])
  }

  ghost predicate Good(s: State) {
    && (forall i, j | 0 <= i < j < |s.spent| :: s.spent[i].0 != s.spent[j].0)
    && (forall i | 0 <= i < |s.spent| ::
          s.spent[i].0 in s.grants && s.grants[s.spent[i].0].consumedAt == Some(s.spent[i].1))
    && (forall id | id in s.grants && s.grants[id].consumedAt.Some? ::
          (id, s.grants[id].consumedAt.value) in s.spent && s.grants[id].consumedAt.value < s.grants[id].expiresAt)
    && (forall c | c in s.callers && s.callers[c].Checked? ::
          s.callers[c].id in s.grants && s.callers[c].now < s.grants[s.callers[c].id].expiresAt)
  }

  lemma MarkKeepsGood(s: State, caller: nat)
    requires Good(s)
    ensures Good(After(s, Mark(caller)))
  {
    if caller in s.callers && s.callers[caller].Checked? {
      var id, now := s.callers[caller].id, s.callers[caller].now;
      if s.grants[id].consumedAt.None? {
        var s' := After(s, Mark(caller));
        assert s'.spent[|s.spent|] == (id, now);
        forall other | other in s'.grants && s'.grants[other].consumedAt.Some?
          ensures (other, s'.grants[other].consumedAt.value) in s'.spent
        {
          if other != id {
            assert (other, s.grants[other].consumedAt.value) in s.spent;
          }
        }
      }
    }
  }

  lemma {:induction false} RunKeepsGood(s: State, events: seq<Event>)
    requires Good(s)
    ensures Good(Run(s, events))
    decreases |events|
  {
    if events != [] {
      if events[0].Mark? {
        MarkKeepsGood(s, events[0].caller);
      }
      RunKeepsGood(After(s, events[0]), events[1..]);
    }
  }

  /** A grant is consumed successfully at most once, never at or after its
      expiry, and exactly when its row says so. */
  lemma GrantsAreSingleUse(events: seq<Event>, i: nat, j: nat, id: string)
    requires i < |Run(INITIAL, events).spent| && j < |Run(INITIAL, events).spent|
    ensures Run(INITIAL, events).spent[i].0 == Run(INITIAL, events).spent[j].0 ==> i == j
    ensures Run(INITIAL, events).spent[i].0 in Run(INITIAL, events).grants
    ensures Run(INITIAL, events).spent[i].1 < Run(INITIAL, events).grants[Run(INITIAL, events).spent[i].0].expiresAt
    ensures id in Run(INITIAL, events).grants && Run(INITIAL, events).grants[id].consumedAt.Some? ==>
              (id, Run(INITIAL, events).grants[id].consumedAt.value) in Run(INITIAL, events).spent
  {
    RunKeepsGood(INITIAL, events);
  }

  /** Issued, read and marked undisturbed, a grant is consumed exactly when its id
      was new and the clock is before its expiry; no other grant changes. */
  lemma UndisturbedGrant(s: State, caller: nat, id: string, expiresAt: int, now: int)
    requires id !in s.grants && (caller in s.callers ==> s.callers[caller] == Idle)
    ensures forall s' | s' == Run(s, [Issue(id, expiresAt), Read(caller, id, now), Mark(caller)]) ::
              && Sets(s.grants, s'.grants, id, Grant(expiresAt, if now < expiresAt then Some(now) else None))
              && s'.spent == if now < expiresAt then s.spent + [(id, now)] else s.spent
  {
    var e := [Issue(id, expiresAt), Read(caller, id, now), Mark(caller)];
    assert e[1..] == [e[1], e[2]] && e[1..][1..] == [e[2]] && e[1..][1..][1..] == [];
    var s1 := After(s, e[0]);
    var s2 := After(s1, e[1]);
    assert Run(s, e) == Run(s1, e[1..]) == Run(s2, [e[2]]) == After(s2, e[2]);
  }

  /** Reading a consumed, expired or unknown grant changes nothing, and marking it
      after that changes no grant. */
  lemma SpentGrantStays(s: State, caller: nat, id: string, now: int)
    requires caller in s.callers ==> s.callers[caller] == Idle
    requires id !in s.grants || s.grants[id].consumedAt.Some? || s.grants[id].expiresAt <= now
    ensures After(s, Read(caller, id, now)) == s
    ensures forall s' | s' == Run(s, [Read(caller, id, now), Mark(caller)]) ::
              s'.grants == s.grants && s'.spent == s.spent
  {
    var e := [Read(caller, id, now), Mark(caller)];
    assert e[1..] == [e[1]] && e[1..][1..] == [];
    var s1 := After(s, e[0]);
    assert Run(s, e) == Run(s1, [e[1]]) == After(s1, e[1]);
  }
}
