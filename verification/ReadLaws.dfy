/** What the calls that read or change a set's record tell: metadata, limits, wait counters and single values. */
module ReadLaws {
  import opened SemTypes
  import opened StoreModel
  import opened StoreValid
  import opened StoreLaws

  // ---------------------------------------------------------------- values

  /** The three ways of reading a live set agree, and reading anything else is refused. */
  lemma ReadsAgree(st: Store, id: i32, k: nat, n: nat)
    requires Valid(st)
    ensures Live(st, id, k) <==> GetVal(st, id, k).code != -22
    ensures Live(st, id, k) ==> 0 <= GetVal(st, id, k).code <= 32767
    ensures !Live(st, id, k) ==> GetPid(st, id, k).code == -22
    ensures GetAll(st, id, n).code == if HasSize(st, id, n) then 0 else -22
    ensures HasSize(st, id, n) && k < n ==>
              var all := GetAll(st, id, n).answer;
              Live(st, id, k) && all.Values? && |all.values| == n && all.values[k] == GetVal(st, id, k).code
  {
    if FindSet(st, id).Some? { assert ValidSet(st.sets[FindSet(st, id).value]); }
  }

  // ---------------------------------------------------------------- metadata

  /** STAT answers exactly for live sets, with the size GETALL expects and the upper half of the identifier. */
  lemma StatLaw(st: Store, id: i32, n: nat)
    requires Valid(st)
    ensures var r := Stat(st, id);
            && r.code == (if FindSet(st, id).Some? then 0 else -22)
            && (r.code == 0 ==>
                  && r.answer.Metadata? && (r.answer.nsems == n <==> HasSize(st, id, n))
                  && r.answer.generation == id / 0x1_0000 && r.answer.meta == st.sets[FindSet(st, id).value].meta)
  {
  }

  /** STAT by index answers exactly for slots in use, and as STAT does for the identifier it returns. */
  lemma StatIndexLaw(st: Store, index: nat)
    requires Valid(st)
    ensures var r := StatIndex(st, index);
            if index < 128 && st.sets[index].active then
              0 < r.code <= INT_MAX && FindSet(st, r.code) == Some(index) && r.answer == Stat(st, r.code).answer
            else r.code == -22
  {
    if index < 128 && st.sets[index].active { LiveResolves(st, index); }
  }

  /** A set's group and mode change exactly when its owner or creator asks, keeps the owner, gives its own or the
      caller's group, and sets no bit above the nine of the mode; nothing else can be told apart afterwards. */
  lemma SetMetaLaw(st: Store, semid: i32, uid: u32, gid: u32, mode: u32, who: Identity, now: i64, id: i32)
    requires Valid(st)
    ensures var r := SetMeta(st, semid, uid, gid, mode, who, now);
            && Shape(r.store) && r.store.undo == st.undo && FindSet(r.store, id) == FindSet(st, id)
            && (FindSet(st, semid).None? ==> r.code == -22)
            && (FindSet(st, semid).Some? ==>
                  var m := Stat(st, semid).answer.meta;
                  && r.code == (if (who.uid == m.uid || who.uid == m.cuid) && uid == m.uid &&
                                   (gid == m.gid || gid == who.gid) && mode < 512 then 0 else -1)
                  && (r.code == 0 ==>
                        Stat(r.store, semid).answer ==
                          Stat(st, semid).answer.(meta := m.(gid := gid, mode := mode, ctime := now))))
            && (r.code != 0 ==> r.store == st)
            && (id != semid ==> Untouched(st, r.store, id))
            && (FindSet(st, id).Some? ==>
                  var i := FindSet(st, id).value; r.store.sets[i] == st.sets[i].(meta := r.store.sets[i].meta))
  {
    hide DecodeId;
    SetMetaValid(st, semid, uid, gid, mode, who, now);
    SameSlotSameId(st, semid, id);
  }

  // ---------------------------------------------------------------- limits

  /** The number of semaphores in the first `n` slots. */
  function Sizes(sets: seq<SemSet>, n: nat): nat
    requires n <= |sets|
  {
    if n == 0 then 0 else Sizes(sets, n - 1) + |sets[n - 1].values|
  }

  ghost function Used(sets: seq<SemSet>, n: nat): set<int>
    requires n <= |sets|
  {
    set i | 0 <= i < n && sets[i].active
  }

  lemma {:induction false} CensusCounts(sets: seq<SemSet>, n: nat)
    requires n <= |sets| && forall i :: 0 <= i < |sets| && !sets[i].active ==> sets[i].values == []
    ensures var (highest, active, total) := Census(sets, n);
            && active == |Used(sets, n)| && total == Sizes(sets, n)
            && (forall i :: i in Used(sets, n) ==> i <= highest)
            && (if Used(sets, n) == {} then highest == 0 else highest in Used(sets, n))
  {
    if n > 0 {
      CensusCounts(sets, n - 1);
      assert Used(sets, n) == Used(sets, n - 1) + if sets[n - 1].active then {n - 1} else {};
    }
  }

  /** INFO reports the limits, and on request how many sets and semaphores are in use; its result is the highest slot in
      use, or 0. */
  lemma InfoLaw(st: Store, dynamic: bool)
    requires Valid(st)
    ensures var r := Info(st, dynamic);
            var used := set i | 0 <= i < 128 && st.sets[i].active;
            && r.store == st
            && (if used == {} then r.code == 0 else r.code in used && forall i :: i in used ==> i <= r.code)
            && r.answer == Limits([128, 128, 65536, 128, 512, 512, 512, if dynamic then |used| else 80,
                                   32767, if dynamic then Sizes(st.sets, 128) else 32767])
  {
    hide Unique, EntryOk, UniqueKeys;
    assert forall i :: 0 <= i < MAX_SETS ==> ValidSet(st.sets[i]);
    CensusCounts(st.sets, MAX_SETS);
    assert Used(st.sets, MAX_SETS) == set i | 0 <= i < 128 && st.sets[i].active;
  }

  // ---------------------------------------------------------------- wait counters

  /** One wait counter moves by one, exactly when its semaphore is live and the counter stays in 32 bits; nothing else
      changes. */
  lemma AdjustWaitLaw(st: Store, semid: i32, semNum: nat, forZero: bool, up: bool, id: i32, k: nat, zero: bool)
    requires Valid(st)
    ensures var r := AdjustWait(st, semid, semNum, forZero, up);
            && Shape(r.store) && r.store.undo == st.undo && FindSet(r.store, id) == FindSet(st, id)
            && r.code == (if !Live(st, semid, semNum) then -22
                          else if Waiting(st, semid, semNum, forZero) == (if up then 0xffff_ffff else 0) then -34
                          else 0)
            && (r.code != 0 ==> r.store == st)
            && (Live(st, id, k) ==>
                  && Live(r.store, id, k) && GetVal(r.store, id, k) == GetVal(st, id, k).(store := r.store)
                  && Waiting(r.store, id, k, zero) == Waiting(st, id, k, zero) +
                       if r.code == 0 && id == semid && k == semNum && zero == forZero then if up then 1 else -1 else 0)
  {
    hide DecodeId, Unique, EntryOk, UniqueKeys;
    AdjustWaitValid(st, semid, semNum, forZero, up);
    SameSlotSameId(st, semid, id);
  }

  /** How many operations the store counts as waiting for this semaphore to rise, or to become zero. */
  function Waiting(st: Store, id: i32, k: nat, forZero: bool): nat
    requires Shape(st) && Live(st, id, k)
  {
    var s := st.sets[FindSet(st, id).value];
    if forZero then s.zeroWaiters[k] else s.negWaiters[k]
  }

  /** GETNCNT and GETZCNT report that count, cut at INT_MAX. */
  lemma WaitCountLaw(st: Store, id: i32, k: nat, forZero: bool)
    requires Shape(st)
    ensures WaitCount(st, id, k, forZero).store == st
    ensures !Live(st, id, k) ==> WaitCount(st, id, k, forZero).code == -22
    ensures Live(st, id, k) ==>
              var n := Waiting(st, id, k, forZero);
              WaitCount(st, id, k, forZero).code == if n > 0x7fff_ffff then 0x7fff_ffff else n
  {
  }
}
