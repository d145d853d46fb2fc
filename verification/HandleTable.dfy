/** The WOW64 adapter-handle table: 32-bit processes see an adapter as an index into 32 slots
    that hold the driver's 64-bit handles. */
module HandleTable {
  import opened Sets

  const ADAPTER_LIST_SIZE := 32

  /** A 64-bit adapter handle; zero marks an empty slot. */
  type Handle = h: int | 0 <= h < 0x1_0000_0000_0000_0000

  /** What slot 0 holds once the table has been filled. */
  const FILLED: Handle := 0xFFFF_FFFF_FFFF_FFFF

  type Table = t: seq<Handle> | |t| == ADAPTER_LIST_SIZE + 1 witness seq(ADAPTER_LIST_SIZE + 1, _ => 0)

  /** The handles the driver reports: at most as many as its list has room for. */
  type AdapterList = l: seq<Handle> | |l| <= ADAPTER_LIST_SIZE witness []

  function EmptyTable(): Table {
    seq(ADAPTER_LIST_SIZE + 1, _ => 0)
  }

  // ----- lookup and update, as functions of the table -----

  /** The first slot among the first `n` that holds `h`, or 0. */
  function FindAmong(t: Table, h: Handle, n: nat): (slot: nat)
    requires n <= ADAPTER_LIST_SIZE
    ensures slot == 0 <==> forall i | 1 <= i <= n :: t[i] != h
    ensures slot != 0 ==> slot <= n && t[slot] == h && forall i | 1 <= i < slot :: t[i] != h
  {
    if n == 0 then 0
    else if FindAmong(t, h, n - 1) == 0 && t[n] == h then n
    else FindAmong(t, h, n - 1)
  }

  function Find(t: Table, h: Handle): nat {
    FindAmong(t, h, |t| - 1)
  }

  /** The slot to overwrite among the first `n`: one whose handle is not listed, the last such
      slot when a single adapter is listed and the first otherwise; 0 when there is none. */
  function Victim(t: Table, l: AdapterList, n: nat): (slot: nat)
    requires n <= ADAPTER_LIST_SIZE
    ensures slot == 0 <==> forall i | 1 <= i <= n :: t[i] in l
    ensures slot != 0 ==> slot <= n && t[slot] !in l
    ensures slot != 0 && |l| != 1 ==> forall i | 1 <= i < slot :: t[i] in l
    ensures slot != 0 && |l| == 1 ==> forall i | slot < i <= n :: t[i] in l
  {
    if n == 0 then 0
    else if t[n] !in l && (|l| == 1 || Victim(t, l, n - 1) == 0) then n
    else Victim(t, l, n - 1)
  }

  /** One adapter of the list taken into the table. */
  function Inserted(t: Table, l: AdapterList, h: Handle): Table
  {
    var victim := Victim(t, l, |t| - 1);
    if Find(t, h) != 0 || victim == 0 then t else t[victim := h]
  }

  function InsertedAll(t: Table, l: AdapterList, n: nat): Table
    requires n <= |l|
  {
    if n == 0 then t else Inserted(InsertedAll(t, l, n - 1), l, l[n - 1])
  }

  /** The first update copies the list. */
  function FirstFill(t: Table, l: AdapterList): Table
  {
    [FILLED] + l + t[|l| + 1..]
  }

  function Updated(t: Table, l: AdapterList): Table
  {
    if t[0] == 0 then FirstFill(t, l) else InsertedAll(t, l, |l|)
  }

  /** The table after a history of updates. */
  function Run(history: seq<AdapterList>): Table
  {
    if history == [] then EmptyTable() else Updated(Run(history[..|history| - 1]), history[|history| - 1])
  }

  // ----- the class -----

  class CWow64Helper {
    const m_Handle32to64: array<Handle>

    ghost predicate Valid()
      reads this
    {
      m_Handle32to64.Length == ADAPTER_LIST_SIZE + 1
    }

    ghost function Contents(): Table
      requires Valid()
      reads this, m_Handle32to64
    {
      m_Handle32to64[..]
    }

    constructor ()
      ensures Valid() && fresh(m_Handle32to64) && Contents() == EmptyTable()
    {
      m_Handle32to64 := new Handle[ADAPTER_LIST_SIZE + 1](_ => 0);
    }

    method From32to64Handle(handle: nat) returns (result: Handle)
      requires Valid() && handle <= ADAPTER_LIST_SIZE
      ensures result == Contents()[handle]
    {
      result := m_Handle32to64[handle];
    }

    method From64to32Handle(handle: Handle) returns (result: nat)
      requires Valid()
      ensures result == Find(Contents(), handle)
    {
      result := 0;
      var i := 1;
      while i < ADAPTER_LIST_SIZE + 1
        invariant 1 <= i <= ADAPTER_LIST_SIZE + 1
        invariant result == 0 && forall j | 1 <= j < i :: m_Handle32to64[j] != handle
      {
        if m_Handle32to64[i] == handle {
          result := i;
          break;
        }
        i := i + 1;
      }
    }

    /** The nested eviction search: for each slot, the list is walked until the slot's handle
        is met, the end is reached, or a slot has been chosen before. */
    method FindVictim(l: AdapterList) returns (pos: nat)
      requires Valid() && l != []
      ensures pos == Victim(Contents(), l, |Contents()| - 1)
    {
      ghost var t := Contents();
      pos := 0;
      var j := 1;
      while j < ADAPTER_LIST_SIZE + 1
        invariant 1 <= j <= ADAPTER_LIST_SIZE + 1
        invariant pos == Victim(t, l, j - 1)
      {
        ghost var before := pos;
        var k := 0;
        while k < |l|
          invariant 0 <= k < |l| && pos == before
          invariant forall i | 0 <= i < k :: t[j] != l[i]
          invariant pos != 0 ==> k == 0
        {
          if m_Handle32to64[j] == l[k] {
            break;
          }
          if k == |l| - 1 {
            pos := j;
          }
          if pos != 0 {
            break;
          }
          k := k + 1;
        }
        assert pos == Victim(t, l, j);
        j := j + 1;
      }
    }

    /** The first call copies the list. */
    method Fill(l: AdapterList)
      requires Valid()
      modifies m_Handle32to64
      ensures Contents() == FirstFill(old(Contents()), l)
    {
      m_Handle32to64[0] := FILLED;
      var i := 0;
      while i < |l|
        invariant 0 <= i <= |l|
        invariant m_Handle32to64[0] == FILLED
        invariant forall j | 0 <= j < i :: m_Handle32to64[j + 1] == l[j]
        invariant forall j | i < j <= ADAPTER_LIST_SIZE :: m_Handle32to64[j] == old(m_Handle32to64[j])
      {
        m_Handle32to64[i + 1] := l[i];
        i := i + 1;
      }
    }

    /** The body of the later calls' loop, for one adapter of the list. */
    method Insert(l: AdapterList, h: Handle)
      requires Valid() && l != []
      modifies m_Handle32to64
      ensures Contents() == Inserted(old(Contents()), l, h)
    {
      var existing := From64to32Handle(h);
      if existing == 0 {
        var pos := FindVictim(l);
        if pos != 0 {
          m_Handle32to64[pos] := h;
        }
      }
    }

    method Update(l: AdapterList)
      requires Valid()
      modifies m_Handle32to64
      ensures Contents() == Updated(old(Contents()), l)
    {
      if m_Handle32to64[0] == 0 {
        Fill(l);
      } else {
        var i := 0;
        while i < |l|
          invariant 0 <= i <= |l|
          invariant Contents() == InsertedAll(old(Contents()), l, i)
        {
          Insert(l, l[i]);
          i := i + 1;
        }
      }
    }
  }

  // ----- what the table guarantees -----

  /** An adapter list as the driver gives it: distinct handles, none of them zero. */
  predicate Distinct(l: AdapterList) {
    && (forall i | 0 <= i < |l| :: l[i] != 0)
    && (forall i, j | 0 <= i < j < |l| :: l[i] != l[j])
  }

  /** Occupied slots hold distinct handles, and a table never filled is empty. */
  predicate Consistent(t: Table) {
    && (forall i, j | 1 <= i < j <= ADAPTER_LIST_SIZE && t[i] == t[j] :: t[i] == 0)
    && (t[0] == 0 ==> forall i | 1 <= i <= ADAPTER_LIST_SIZE :: t[i] == 0)
  }

  predicate Mapped(t: Table, h: Handle) {
    Find(t, h) != 0
  }

  function Elements(s: seq<Handle>): set<Handle> {
    set x | x in s
  }

  /** A sequence without repetitions has as many elements as positions. */
  lemma {:induction false} DistinctCardinality(s: seq<Handle>)
    ensures |Elements(s)| <= |s|
    ensures (forall i, j | 0 <= i < j < |s| :: s[i] != s[j]) ==> |Elements(s)| == |s|
  {
    if s == [] {
      assert Elements(s) == {};
    } else {
      var rest, last := s[..|s| - 1], s[|s| - 1];
      DistinctCardinality(rest);
      assert Elements(s) == Elements(rest) + {last};
    }
  }

  /** The pigeonhole: when a listed handle has no slot, some slot holds a handle that is not
      listed, since 32 occupied slots would need 32 other listed handles. */
  lemma VictimExists(t: Table, l: AdapterList, h: Handle)
    requires Consistent(t) && Distinct(l) && h in l && !Mapped(t, h)
    ensures Victim(t, l, |t| - 1) != 0
  {
    if Victim(t, l, |t| - 1) == 0 {
      var slots := t[1..];
      forall x | x in Elements(slots)
        ensures x in Elements(l) - {h} && x != 0
      {
        var i :| 0 <= i < |slots| && slots[i] == x;
        assert t[i + 1] in l;
      }
      DistinctCardinality(slots);
      assert |Elements(slots)| == ADAPTER_LIST_SIZE by {
        assert forall i | 0 <= i < |slots| :: slots[i] in Elements(slots) && slots[i] == t[i + 1];
      }
      DistinctCardinality(l);
      assert h in Elements(l);
      SubsetSize(Elements(slots), Elements(l) - {h});
    }
  }

  /** Taking an adapter in changes at most one slot, neither slot 0 nor a listed adapter's. */
  lemma InsertedElsewhere(t: Table, l: AdapterList, h: Handle)
    ensures var u := Inserted(t, l, h);
            && (forall i | 0 <= i <= ADAPTER_LIST_SIZE && (i == 0 || t[i] in l) :: u[i] == t[i])
            && (forall i | 0 <= i <= ADAPTER_LIST_SIZE && u[i] != t[i] :: u[i] == h)
            && (forall i, j | 0 <= i < j <= ADAPTER_LIST_SIZE && u[i] != t[i] :: u[j] == t[j])
  {
  }

  lemma {:induction false} InsertedAllElsewhere(t: Table, l: AdapterList, n: nat)
    requires n <= |l|
    ensures var u := InsertedAll(t, l, n);
            && (forall i | 0 <= i <= ADAPTER_LIST_SIZE && (i == 0 || t[i] in l) :: u[i] == t[i])
            && (forall i | 0 <= i <= ADAPTER_LIST_SIZE && u[i] != t[i] :: u[i] in l)
  {
    if n > 0 {
      InsertedAllElsewhere(t, l, n - 1);
      var u, v := InsertedAll(t, l, n - 1), InsertedAll(t, l, n);
      InsertedElsewhere(u, l, l[n - 1]);
      forall i | 0 <= i <= ADAPTER_LIST_SIZE
        ensures i == 0 || t[i] in l ==> v[i] == t[i]
        ensures v[i] != t[i] ==> v[i] in l
      {
        assert v[i] != u[i] ==> v[i] == l[n - 1];
      }
    }
  }

  /** What an update does to the slots: the first one puts the list into slots 1, 2, ... in order; a
      later one leaves slot 0 and every listed adapter's slot, and overwrites others with listed
      adapters only. */
  lemma UpdateElsewhere(t: Table, l: AdapterList, i: nat)
    requires i <= ADAPTER_LIST_SIZE
    ensures t[0] == 0 && 1 <= i <= |l| ==> Updated(t, l)[i] == l[i - 1]
    ensures t[0] == 0 && i > |l| ==> Updated(t, l)[i] == t[i]
    ensures t[0] != 0 && (i == 0 || t[i] in l) ==> Updated(t, l)[i] == t[i]
    ensures t[0] != 0 && Updated(t, l)[i] != t[i] ==> Updated(t, l)[i] in l
  {
    if t[0] != 0 {
      InsertedAllElsewhere(t, l, |l|);
    } else if 1 <= i <= |l| {
      FillsInOrder(t, l, i);
    }
  }

  lemma FillsInOrder(t: Table, l: AdapterList, i: nat)
    requires 1 <= i <= |l|
    ensures FirstFill(t, l)[i] == l[i - 1]
  {
  }

  /** In a consistent table an occupied slot is found by its handle. */
  lemma UniqueSlot(t: Table, slot: nat, h: Handle)
    requires Consistent(t) && 1 <= slot <= ADAPTER_LIST_SIZE && t[slot] == h != 0
    ensures Find(t, h) == slot
  {
  }

  /** Taking one listed adapter in gives it a slot and moves no listed adapter. */
  lemma InsertedKeeps(t: Table, l: AdapterList, h: Handle, g: Handle)
    requires t[0] != 0 && Consistent(t) && Distinct(l) && h in l && g in l
    ensures Inserted(t, l, h)[0] != 0 && Consistent(Inserted(t, l, h))
    ensures Mapped(t, g) || g == h ==> Mapped(Inserted(t, l, h), g)
    ensures Mapped(t, g) ==> Find(Inserted(t, l, h), g) == Find(t, g)
  {
    if !Mapped(t, h) {
      VictimExists(t, l, h);
      var victim := Victim(t, l, |t| - 1);
      var u := t[victim := h];
      assert u[victim] == h;
      if Mapped(t, g) {
        assert u[Find(t, g)] == g;
        UniqueSlot(u, Find(t, g), g);
      }
    }
  }

  lemma {:induction false} InsertedAllKeeps(t: Table, l: AdapterList, n: nat, k: nat)
    requires t[0] != 0 && Consistent(t) && Distinct(l) && n <= |l| && k < |l|
    ensures InsertedAll(t, l, n)[0] != 0 && Consistent(InsertedAll(t, l, n))
    ensures Mapped(t, l[k]) ==> Find(InsertedAll(t, l, n), l[k]) == Find(t, l[k])
    ensures k < n ==> Mapped(InsertedAll(t, l, n), l[k])
  {
    if n > 0 {
      InsertedAllKeeps(t, l, n - 1, k);
      var u := InsertedAll(t, l, n - 1);
      InsertedKeeps(u, l, l[n - 1], l[k]);
      assert k < n ==> Mapped(u, l[k]) || l[k] == l[n - 1];
    }
  }

  lemma UpdateKeeps(t: Table, l: AdapterList, g: Handle)
    requires Consistent(t) && Distinct(l) && g in l
    ensures Consistent(Updated(t, l)) && Updated(t, l)[0] != 0 && Mapped(Updated(t, l), g)
    ensures Mapped(t, g) ==> Find(Updated(t, l), g) == Find(t, g)
  {
    var k :| 0 <= k < |l| && l[k] == g;
    if t[0] == 0 {
      assert FirstFill(t, l)[k + 1] == g;
    } else {
      InsertedAllKeeps(t, l, |l|, k);
    }
  }

  /** An update always succeeds: every listed adapter gets a slot in 1..32, occupied slots stay
      distinct, and a listed adapter that had a slot keeps it. */
  lemma UpdateSucceeds(t: Table, l: AdapterList)
    requires Consistent(t) && Distinct(l)
    ensures Consistent(Updated(t, l)) && Updated(t, l)[0] != 0
    ensures forall h | h in l :: 1 <= Find(Updated(t, l), h) <= ADAPTER_LIST_SIZE
    ensures forall h | h in l && Mapped(t, h) :: Find(Updated(t, l), h) == Find(t, h)
  {
    if t[0] != 0 && l == [] {
      assert Updated(t, l) == t;
    }
    forall h | h in l
      ensures Consistent(Updated(t, l)) && Updated(t, l)[0] != 0 && Mapped(Updated(t, l), h)
      ensures Mapped(t, h) ==> Find(Updated(t, l), h) == Find(t, h)
    {
      UpdateKeeps(t, l, h);
    }
    if l != [] {
      UpdateKeeps(t, l, l[0]);
    }
  }

  /** So it is after any history of updates. */
  lemma {:induction false} RunConsistent(history: seq<AdapterList>)
    requires forall l | l in history :: Distinct(l)
    ensures Consistent(Run(history))
    ensures history != [] ==> forall h | h in history[|history| - 1] :: Mapped(Run(history), h)
  {
    if history != [] {
      RunConsistent(history[..|history| - 1]);
      UpdateSucceeds(Run(history[..|history| - 1]), history[|history| - 1]);
    }
  }

  /** An adapter listed in every later update keeps its 32-bit handle throughout. */
  lemma {:induction false} HandleStable(history: seq<AdapterList>, later: seq<AdapterList>, h: Handle)
    requires forall l | l in history + later :: Distinct(l)
    requires Mapped(Run(history), h)
    requires forall l | l in later :: h in l
    ensures Find(Run(history + later), h) == Find(Run(history), h)
  {
    if later == [] {
      assert history + later == history;
    } else {
      var before, last := history + later[..|later| - 1], later[|later| - 1];
      assert history + later == before + [last];
      HandleStable(history, later[..|later| - 1], h);
      RunConsistent(before);
      assert Run(before + [last]) == Updated(Run(before), last) by {
        assert (before + [last])[..|before|] == before;
      }
      UpdateKeeps(Run(before), last, h);
    }
  }

  /** In every reachable table the lookups invert each other, on mapped handles and on
      occupied slots. */
  lemma LookupsInvert(history: seq<AdapterList>)
    requires forall l | l in history :: Distinct(l)
    ensures forall h | Mapped(Run(history), h) :: Run(history)[Find(Run(history), h)] == h
    ensures forall slot | 1 <= slot <= ADAPTER_LIST_SIZE && Run(history)[slot] != 0 ::
      Find(Run(history), Run(history)[slot]) == slot
  {
    RunConsistent(history);
    forall slot | 1 <= slot <= ADAPTER_LIST_SIZE && Run(history)[slot] != 0
      ensures Find(Run(history), Run(history)[slot]) == slot
    {
      UniqueSlot(Run(history), slot, Run(history)[slot]);
    }
  }

  // ----- the filter tables that pass through the handle table -----

  /** A static filter: its adapter and the rest of the rule, which is not touched. */
  datatype StaticFilter = StaticFilter(adapter: Handle, rule: seq<int>)

  /** `(unsigned)LowPart` of an adapter field. */
  function LowPart(a: Handle): nat {
    a % 0x1_0000_0000
  }

  /** Adapter fields that can be used as an index into the table. */
  predicate Indexes(a: Handle) {
    a != 0 ==> LowPart(a) <= ADAPTER_LIST_SIZE
  }

  function ToDriver(t: Table, f: StaticFilter): StaticFilter
    requires Indexes(f.adapter)
  {
    if f.adapter == 0 then f else f.(adapter := t[LowPart(f.adapter)])
  }

  function FromDriver(t: Table, f: StaticFilter): StaticFilter {
    f.(adapter := Find(t, f.adapter))
  }

  /** The loop that `SetPacketFilterTable` runs before it hands the table to the driver. */
  method TranslateToDriver(helper: CWow64Helper, filters: array<StaticFilter>)
    requires helper.Valid()
    requires forall i | 0 <= i < filters.Length :: Indexes(filters[i].adapter)
    modifies filters
    ensures forall i | 0 <= i < filters.Length ::
      filters[i] == ToDriver(helper.Contents(), old(filters[i]))
  {
    var i := 0;
    while i < filters.Length
      invariant 0 <= i <= filters.Length
      invariant forall j | 0 <= j < i :: filters[j] == ToDriver(helper.Contents(), old(filters[j]))
      invariant forall j | i <= j < filters.Length :: filters[j] == old(filters[j])
    {
      if filters[i].adapter != 0 {
        var handle := helper.From32to64Handle(LowPart(filters[i].adapter));
        filters[i] := filters[i].(adapter := handle);
      }
      i := i + 1;
    }
  }

  /** The loop that `GetPacketFilterTable` runs on the table it gets from the driver. */
  method TranslateFromDriver(helper: CWow64Helper, filters: array<StaticFilter>)
    requires helper.Valid()
    modifies filters
    ensures forall i | 0 <= i < filters.Length ::
      filters[i] == FromDriver(helper.Contents(), old(filters[i]))
  {
    var i := 0;
    while i < filters.Length
      invariant 0 <= i <= filters.Length
      invariant forall j | 0 <= j < i :: filters[j] == FromDriver(helper.Contents(), old(filters[j]))
      invariant forall j | i <= j < filters.Length :: filters[j] == old(filters[j])
    {
      var handle := helper.From64to32Handle(filters[i].adapter);
      filters[i] := filters[i].(adapter := handle);
      i := i + 1;
    }
  }

  /** When an adapter field comes back from the driver as it was set, in any table that updates
      can lead to: when it is an occupied slot or the first empty one, or is 0 and no slot is empty. */
  lemma FilterRestored(t: Table, f: StaticFilter)
    requires Consistent(t) && Indexes(f.adapter)
    ensures FromDriver(t, ToDriver(t, f)) == f <==> ComesBack(t, f.adapter)
  {
    var a := f.adapter;
    if a == 0 {
    } else if a <= ADAPTER_LIST_SIZE {
      assert LowPart(a) == a;
      if t[a] != 0 {
        UniqueSlot(t, a, t[a]);
      }
    } else {
      assert Find(t, t[LowPart(a)]) <= ADAPTER_LIST_SIZE;
    }
  }

  /** Of an adapter field only the low 32 bits count, but for a field that is zero as a whole. */
  lemma HighPartIgnored(t: Table, f: StaticFilter, high: nat)
    requires 1 <= f.adapter <= ADAPTER_LIST_SIZE && high < 0x1_0000_0000
    ensures ToDriver(t, f.(adapter := f.adapter + high * 0x1_0000_0000)).adapter == t[f.adapter]
  {
    assert LowPart(f.adapter + high * 0x1_0000_0000) == f.adapter;
  }

  predicate ComesBack(t: Table, a: Handle) {
    if a == 0 then !Mapped(t, 0) else a <= ADAPTER_LIST_SIZE && (t[a] != 0 || Find(t, 0) == a)
  }

  /** A filter set on an adapter comes back as it was set even after further updates of the
      handle table, as long as each of them lists the adapter. */
  lemma FilterSurvivesUpdates(history: seq<AdapterList>, later: seq<AdapterList>, f: StaticFilter, h: Handle)
    requires forall l | l in history + later :: Distinct(l)
    requires 1 <= f.adapter <= ADAPTER_LIST_SIZE && Run(history)[f.adapter] == h != 0
    requires forall l | l in later :: h in l
    ensures FromDriver(Run(history + later), ToDriver(Run(history), f)) == f
  {
    assert forall l | l in history :: l in history + later;
    RunConsistent(history);
    UniqueSlot(Run(history), f.adapter, h);
    HandleStable(history, later, h);
    ReadBack(Run(history), Run(history + later), f, h);
  }

  lemma ReadBack(t: Table, u: Table, f: StaticFilter, h: Handle)
    requires 1 <= f.adapter <= ADAPTER_LIST_SIZE && t[f.adapter] == h
    ensures FromDriver(u, ToDriver(t, f)) == f <==> Find(u, h) == f.adapter
  {
    assert LowPart(f.adapter) == f.adapter;
  }

  /** The round trip of a whole filter table through both loops. */
  method SetAndGet(helper: CWow64Helper, filters: array<StaticFilter>)
    requires helper.Valid() && Consistent(helper.Contents())
    requires forall i | 0 <= i < filters.Length :: Indexes(filters[i].adapter)
    modifies filters
    ensures forall i | 0 <= i < filters.Length ::
      filters[i] == old(filters[i]) <==> ComesBack(helper.Contents(), old(filters[i].adapter))
  {
    TranslateToDriver(helper, filters);
    TranslateFromDriver(helper, filters);
    forall i | 0 <= i < filters.Length
      ensures filters[i] == old(filters[i]) <==> ComesBack(helper.Contents(), old(filters[i].adapter))
    {
      FilterRestored(helper.Contents(), old(filters[i]));
    }
  }
}
