/**
  The in-memory conversation store of internal/telegram/state.go: one entry per (chat, user) that
  runs out after fifteen minutes, with a background sweep of expired entries.
*/
module ConversationState {
  import opened Wrappers

  const STATE_MAX_AGE := 15 * 60

  datatype StateKey = StateKey(chatId: int, userId: int)

  type Data = map<string, string>

  /** `data` is None for a nil map. */
  datatype UserState = UserState(step: string, data: Option<Data>, createdAt: int)

  datatype Answer = Answer(step: string, data: Option<Data>)

  const NOTHING := Answer("", None)

  type States = map<StateKey, UserState>

  predicate Expired(st: UserState, now: int) {
    now - st.createdAt > STATE_MAX_AGE
  }

  function Read(states: States, key: StateKey, now: int): Answer {
    if key in states && !Expired(states[key], now) then Answer(states[key].step, states[key].data) else NOTHING
  }

  function WithoutExpired(states: States, now: int): States {
    map k | k in states && !Expired(states[k], now) :: states[k]
  }

  class MemoryStateStore {
    var states: States

    constructor ()
      ensures states == map[]
    {
      states := map[];
    }

    method Set(chatId: int, userId: int, step: string, data: Option<Data>, now: int)
      modifies this
      ensures states == old(states)[StateKey(chatId, userId) := UserState(step, data, now)]
    {
      states := states[StateKey(chatId, userId) := UserState(step, data, now)];
    }

    method Get(chatId: int, userId: int, now: int) returns (step: string, data: Option<Data>)
      ensures Answer(step, data) == Read(states, StateKey(chatId, userId), now)
    {
      var key := StateKey(chatId, userId);
      if key !in states {
        return "", None;
      }
      var st := states[key];
      if Expired(st, now) {
        return "", None;
      }
      step, data := st.step, None;
      if st.data.Some? {
        var copy: Data := map[];
        var left := st.data.value.Keys;
        while left != {}
          invariant left <= st.data.value.Keys
          invariant copy == map k | k in st.data.value && k !in left :: st.data.value[k]
          decreases |left|
        {
          var k :| k in left;
          copy := copy[k := st.data.value[k]];
          left := left - {k};
        }
        assert copy == st.data.value;
        data := Some(copy);
      }
    }

    method Clear(chatId: int, userId: int)
      modifies this
      ensures states == old(states) - {StateKey(chatId, userId)}
    {
      states := states - {StateKey(chatId, userId)};
    }

    method CleanExpired(now: int)
      modifies this
      ensures states == WithoutExpired(old(states), now)
      ensures forall k :: k in states <==> k in old(states) && now - old(states)[k].createdAt <= 15 * 60
      ensures forall k :: k in states ==> states[k] == old(states)[k]
    {
      var keys := states.Keys;
      while keys != {}
        invariant keys <= old(states).Keys
        invariant forall k :: k in states <==> k in old(states) && (k in keys || !Expired(old(states)[k], now))
        invariant forall k :: k in states ==> states[k] == old(states)[k]
        decreases |keys|
      {
        var k :| k in keys;
        keys := keys - {k};
        if Expired(states[k], now) {
          states := states - {k};
        }
      }
    }
  }

  // ---------------------------------------------------------------- runs

  datatype Op =
    | Set(key: StateKey, step: string, data: Option<Data>, now: int)
    | Clear(key: StateKey, now: int)
    | Sweep(now: int)

  function StatesAfter(ops: seq<Op>): States
    decreases |ops|
  {
    if ops == [] then map[]
    else
      var before := StatesAfter(ops[..|ops| - 1]);
      match ops[|ops| - 1]
      case Set(key, step, data, now) => before[key := UserState(step, data, now)]
      case Clear(key, _) => before - {key}
      case Sweep(now) => WithoutExpired(before, now)
  }

  ghost predicate Chronological(ops: seq<Op>) {
    forall i, j :: 0 <= i <= j < |ops| ==> ops[i].now <= ops[j].now
  }

  predicate Touches(op: Op, key: StateKey) {
    !op.Sweep? && op.key == key
  }

  /** Operation `i` is the last one about `key`. */
  ghost predicate IsLastAbout(ops: seq<Op>, key: StateKey, i: nat) {
    i < |ops| && Touches(ops[i], key) && forall j :: i < j < |ops| ==> !Touches(ops[j], key)
  }

  /** An operation that is not about `key` does not change what a later read of `key` answers. */
  lemma OthersDoNotMatter(ops: seq<Op>, key: StateKey, now: int)
    requires ops != [] && !Touches(ops[|ops| - 1], key) && ops[|ops| - 1].now <= now
    ensures Read(StatesAfter(ops), key, now) == Read(StatesAfter(ops[..|ops| - 1]), key, now)
  {
  }

  /** In every run with sweeps at any moments, a read answers what the last operation about that
      very chat and user says: its step and data while it is a Set no older than fifteen minutes. */
  lemma {:induction false} ReadIsLastWord(ops: seq<Op>, key: StateKey, now: int, i: nat)
    requires Chronological(ops) && IsLastAbout(ops, key, i) && ops[|ops| - 1].now <= now
    ensures Read(StatesAfter(ops), key, now) ==
            if ops[i].Set? && now - ops[i].now <= 15 * 60 then Answer(ops[i].step, ops[i].data) else NOTHING
    decreases |ops|
  {
    var n := |ops| - 1;
    if i < n {
      OthersDoNotMatter(ops, key, now);
      assert ops[n - 1].now <= ops[n].now;
      ReadIsLastWord(ops[..n], key, now, i);
    }
  }

  /** A chat and user nothing was ever said about read as empty. */
  lemma {:induction false} ReadUnknown(ops: seq<Op>, key: StateKey, now: int)
    requires Chronological(ops) && (ops != [] ==> ops[|ops| - 1].now <= now)
    requires forall i :: 0 <= i < |ops| ==> !Touches(ops[i], key)
    ensures Read(StatesAfter(ops), key, now) == NOTHING
    decreases |ops|
  {
    if ops == [] {
    } else {
      var n := |ops| - 1;
      OthersDoNotMatter(ops, key, now);
      assert n > 0 ==> ops[n - 1].now <= ops[n].now;
      ReadUnknown(ops[..n], key, now);
    }
  }
}
