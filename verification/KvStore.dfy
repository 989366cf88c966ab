// The keyed store that admission and the breaker script against (Redis, or src/lib/kv/memory.ts):
// counters and sets under named keys, each with an optional deadline on the store's own clock.
module KvStore {
  import opened Options

  // Key names (nexus:rpm:<id>:<window>, nexus:breaker:open:<id>, ...) as constructors.
  datatype Limit = Rpm | Tpm
  datatype Key =
    | Window(limit: Limit, id: string, index: int)
    | Users(id: string)
    | Strikes(id: string) | Cooldown(id: string) | OpenUntil(id: string) | Probe(id: string) | Auth(id: string)

  datatype Cell<V> = Cell(value: V, expiresAt: Option<int>)

  // What every command sees: the clock in milliseconds, and the entries whose deadline has not passed.
  datatype Store = Store(now: int, nums: map<Key, Cell<int>>, sets: map<Key, Cell<set<string>>>)

  predicate Alive<V>(cell: Cell<V>, now: int) {
    cell.expiresAt.None? || now < cell.expiresAt.value
  }

  function LiveCells<V>(cells: map<Key, Cell<V>>, now: int): map<Key, Cell<V>> {
    map k | k in cells && Alive(cells[k], now) :: cells[k]
  }

  ghost predicate AllLive(st: Store) {
    LiveCells(st.nums, st.now) == st.nums && LiveCells(st.sets, st.now) == st.sets
  }

  // Time passing: whatever is past its deadline is gone.
  function Tick(st: Store, ms: nat): Store {
    Store(st.now + ms, LiveCells(st.nums, st.now + ms), LiveCells(st.sets, st.now + ms))
  }

  function Get(st: Store, k: Key): Option<int> {
    if k in st.nums then Some(st.nums[k].value) else None
  }

  // INCRBY, and DECRBY with a negative amount: keeps the deadline the key has.
  function IncrBy(st: Store, k: Key, amount: int): Store {
    st.(nums := st.nums[k := Cell(Get(st, k).GetOr(0) + amount, if k in st.nums then st.nums[k].expiresAt else None)])
  }

  function Expire(st: Store, k: Key, seconds: nat): Store {
    if k in st.nums then st.(nums := st.nums[k := st.nums[k].(expiresAt := Some(st.now + seconds * 1000))]) else st
  }

  // SET with EX: replaces value and deadline.
  function SetEx(st: Store, k: Key, value: int, seconds: nat): Store {
    st.(nums := st.nums[k := Cell(value, Some(st.now + seconds * 1000))])
  }

  function Del(st: Store, k: Key): Store {
    st.(nums := st.nums - {k})
  }

  function MembersOf(st: Store, k: Key): set<string> {
    if k in st.sets then st.sets[k].value else {}
  }

  function SetAdd(st: Store, k: Key, member: string): Store {
    st.(sets := st.sets[k := Cell(MembersOf(st, k) + {member}, if k in st.sets then st.sets[k].expiresAt else None)])
  }

  function ExpireSet(st: Store, k: Key, seconds: nat): Store {
    if k in st.sets then st.(sets := st.sets[k := st.sets[k].(expiresAt := Some(st.now + seconds * 1000))]) else st
  }

  // The in-process store. It drops an expired entry only when that entry is next touched; no
  // command can tell this from entries that vanish at their deadline.
  class Kv {
    var now: int
    var nums: map<Key, Cell<int>>
    var sets: map<Key, Cell<set<string>>>

    ghost function State(): Store
      reads this
    {
      Store(now, LiveCells(nums, now), LiveCells(sets, now))
    }

    constructor ()
      ensures State() == Store(0, map[], map[])
    {
      now, nums, sets := 0, map[], map[];
    }

    method Wait(ms: nat)
      modifies this`now
      ensures State() == Tick(old(State()), ms)
    {
      now := now + ms;
    }

    method Touch(k: Key) returns (live: bool)
      modifies this`nums
      ensures State() == old(State()) && live == (k in State().nums) && live == (k in nums)
      ensures live ==> nums[k] == State().nums[k]
    {
      if k in nums && !Alive(nums[k], now) { nums := nums - {k}; }
      live := k in nums;
    }

    method GetNum(k: Key) returns (v: Option<int>)
      modifies this`nums
      ensures State() == old(State()) && v == Get(State(), k)
    {
      var live := Touch(k);
      v := if live then Some(nums[k].value) else None;
    }

    method IncrNum(k: Key, amount: int) returns (v: int)
      modifies this`nums
      ensures State() == IncrBy(old(State()), k, amount) && Get(State(), k) == Some(v)
    {
      var live := Touch(k);
      v := (if live then nums[k].value else 0) + amount;
      nums := nums[k := Cell(v, if live then nums[k].expiresAt else None)];
    }

    method ExpireNum(k: Key, seconds: nat)
      requires seconds > 0
      modifies this`nums
      ensures State() == Expire(old(State()), k, seconds)
    {
      var live := Touch(k);
      if live { nums := nums[k := nums[k].(expiresAt := Some(now + seconds * 1000))]; }
    }

    // TTL answers -1 for a key with no deadline.
    method HasNoDeadline(k: Key) returns (b: bool)
      modifies this`nums
      ensures State() == old(State()) && b == (k in State().nums && State().nums[k].expiresAt.None?)
    {
      var live := Touch(k);
      b := live && nums[k].expiresAt.None?;
    }

    method SetNumEx(k: Key, value: int, seconds: nat)
      requires seconds > 0
      modifies this`nums
      ensures State() == SetEx(old(State()), k, value, seconds)
    {
      nums := nums[k := Cell(value, Some(now + seconds * 1000))];
    }

    method DelNum(k: Key)
      modifies this`nums
      ensures State() == Del(old(State()), k)
    {
      nums := nums - {k};
    }

    method TouchSet(k: Key) returns (live: bool)
      modifies this`sets
      ensures State() == old(State()) && live == (k in State().sets) && live == (k in sets)
      ensures live ==> sets[k] == State().sets[k]
    {
      if k in sets && !Alive(sets[k], now) { sets := sets - {k}; }
      live := k in sets;
    }

    method GetMembers(k: Key) returns (m: set<string>)
      modifies this`sets
      ensures State() == old(State()) && m == MembersOf(State(), k)
    {
      var live := TouchSet(k);
      m := if live then sets[k].value else {};
    }

    method AddMember(k: Key, member: string)
      modifies this`sets
      ensures State() == SetAdd(old(State()), k, member)
    {
      var live := TouchSet(k);
      if live {
        sets := sets[k := sets[k].(value := sets[k].value + {member})];
      } else {
        assert {} + {member} == {member};
        sets := sets[k := Cell({member}, None)];
      }
    }

    method ExpireMembers(k: Key, seconds: nat)
      requires seconds > 0
      modifies this`sets
      ensures State() == ExpireSet(old(State()), k, seconds)
    {
      var live := TouchSet(k);
      if live { sets := sets[k := sets[k].(expiresAt := Some(now + seconds * 1000))]; }
    }
  }

  // A value set for so many seconds is read until they have passed, and not after; counting does not
  // put that off.
  lemma {:induction false} LivesItsTime(st: Store, k: Key, value: int, more: int, seconds: nat, ms: nat)
    ensures Get(Tick(SetEx(st, k, value, seconds), ms), k) == if ms < seconds * 1000 then Some(value) else None
    ensures Get(Tick(IncrBy(SetEx(st, k, value, seconds), k, more), ms), k) == if ms < seconds * 1000 then Some(value + more) else None
  {
  }

  // A counter starts at nothing, adds up, and lasts until it is given a deadline.
  lemma {:induction false} AddsUp(st: Store, k: Key, a: int, b: int, seconds: nat, ms: nat)
    requires k !in st.nums
    ensures Get(Tick(IncrBy(IncrBy(st, k, a), k, b), ms), k) == Some(a + b)
    ensures Get(Tick(Expire(IncrBy(st, k, a), k, seconds), ms), k) == if ms < seconds * 1000 then Some(a) else None
    ensures Get(Expire(st, k, seconds), k) == None && Get(Del(IncrBy(st, k, a), k), k) == None
  {
  }

  lemma {:induction false} MembersLive(st: Store, k: Key, member: string, seconds: nat, ms: nat)
    ensures member in MembersOf(SetAdd(st, k, member), k) && MembersOf(SetAdd(st, k, member), k) == MembersOf(st, k) + {member}
    ensures MembersOf(Tick(ExpireSet(SetAdd(st, k, member), k, seconds), ms), k)
         == if ms < seconds * 1000 then MembersOf(st, k) + {member} else {}
  {
  }

  lemma {:induction false} TickLive(st: Store, ms: nat)
    ensures AllLive(Tick(st, ms))
  {
  }
}
