/** Properties of the flat machine itself: what every command keeps, and when the
    distribution over shards can be seen from outside. */
module FlatMachine {
  import opened Text
  import opened SortedSet
  import opened Keyspace
  import opened ShardOps
  import opened Server

  // ---------- the sorted-set index agrees with the scores in every reachable state ----------

  lemma ZAddOk(text: ScoreText, slot: Slot, args: seq<string>)
    requires SlotOk(slot)
    ensures SlotOk(ZAddSlot(text, slot, args))
  {
    ZAddPairsAgree(text, OrElse(slot.zset, []), OrElse(slot.scores, map[]), args, 2);
  }

  lemma ZDropOk(slot: Slot, members: set<string>)
    requires SlotOk(slot)
    ensures SlotOk(ZDropSlot(slot, members))
  {
    if slot.zset.Some? {
      WithoutAgrees(slot.zset.value, slot.scores.value, members);
    }
  }

  lemma ZIncrOk(slot: Slot, member: string, incr: Score)
    requires SlotOk(slot)
    ensures SlotOk(ZIncrSlot(slot, member, incr))
  {
    if slot.zset.Some? && member in slot.scores.value {
      ZPutAgrees(slot.zset.value, slot.scores.value, member, slot.scores.value[member] + incr);
    }
  }

  lemma SlotEffectOk(cfg: Config, slot: Slot, args: seq<string>)
    requires SlotOk(slot)
    ensures SlotEffect(cfg, slot, args).Some? ==> SlotOk(SlotEffect(cfg, slot, args).value)
  {
    hide Agrees, ZAddSlot, ZDropSlot, ZIncrSlot, SetExpiry, InRange;
    ZAddOk(cfg.text, slot, args);
    if |args| >= 3 {
      ZDropOk(slot, SetOf(args[2..]));
    }
    if |args| == 4 {
      var incr, lo, hi := Increment(cfg.text, CommandName(args), args[2]), cfg.text.parse(args[2]), cfg.text.parse(args[3]);
      if incr.Some? {
        ZIncrOk(slot, args[3], incr.value);
      }
      if lo.Some? && hi.Some? {
        ZDropOk(slot, InRange(OrElse(slot.scores, map[]), lo.value, hi.value));
      }
    }
  }

  lemma PairEffectOk(cfg: Config, source: Slot, target: Slot, args: seq<string>)
    requires SlotOk(source) && SlotOk(target)
    ensures match PairEffect(cfg, source, target, args)
      case Some(pair) => SlotOk(pair.0) && SlotOk(pair.1)
      case None => true
  {
    hide SlotOk, RenameSlots, RenameNxSlots, SMoveSlots;
    if |args| >= 3 {
      RenameOk(source, target, SameShard(cfg.hash, args[1], args[2]));
    }
    if |args| == 4 {
      SMoveOk(source, target, args[3]);
    }
  }

  lemma RenameOk(source: Slot, target: Slot, sameShard: bool)
    requires SlotOk(source) && SlotOk(target)
    ensures var pair := RenameSlots(source, target, sameShard); SlotOk(pair.0) && SlotOk(pair.1)
    ensures var pair := RenameNxSlots(source, target, sameShard); SlotOk(pair.0) && SlotOk(pair.1)
  {
    hide Agrees;
  }

  lemma SMoveOk(source: Slot, target: Slot, member: string)
    requires SlotOk(source) && SlotOk(target)
    ensures var pair := SMoveSlots(source, target, member); SlotOk(pair.0) && SlotOk(pair.1)
  {
    hide Agrees;
  }

  ghost predicate StateOk(st: Abs) {
    AbsOk(st) && forall d :: 0 <= d < DB_COUNT ==> ViewOk(st.views[d])
  }

  lemma NextViewOk(cfg: Config, view: FlatDb, args: seq<string>)
    requires ViewOk(view)
    ensures ViewOk(NextView(cfg, view, args))
  {
    hide SlotEffect, PairEffect, SetOf;
    if |args| >= 2 && !IsFlush(args) {
      SlotEffectOk(cfg, view[args[1]], args);
      if |args| >= 3 {
        PairEffectOk(cfg, view[args[1]], view[args[2]], args);
      }
    }
  }

  lemma ApplyOk(cfg: Config, st: Abs, args: seq<string>)
    requires StateOk(st)
    ensures StateOk(Apply(cfg, st, args))
  {
    hide NextView, ViewOk;
    NextViewOk(cfg, st.views[st.db], args);
  }

  /** Over every run from consistent data, index and score map never part. */
  lemma {:induction false} IndexAgreesInEveryRun(cfg: Config, st: Abs, cmds: seq<seq<string>>)
    requires StateOk(st)
    ensures StateOk(ApplyAll(cfg, st, cmds))
    decreases |cmds|
  {
    if cmds != [] {
      ApplyOk(cfg, st, cmds[0]);
      IndexAgreesInEveryRun(cfg, Apply(cfg, st, cmds[0]), cmds[1..]);
    }
  }

  // ---------- whether the shards can be told apart from outside ----------

  /** This command does not rename one sorted set onto a different one that a first type
      under the same name keeps from being erased. */
  ghost predicate ClashFree(st: Abs, args: seq<string>)
    requires AbsOk(st)
  {
    CommandName(args) == "RENAME" && |args| == 3 && args[1] != args[2] ==>
      var source, target := st.views[st.db][args[1]], st.views[st.db][args[2]];
      ZSetClash(source, target) ==> source.scores == target.scores
  }

  ghost predicate ClashFreeRun(cfg: Config, st: Abs, cmds: seq<seq<string>>)
    requires AbsOk(st)
    decreases |cmds|
  {
    cmds != [] ==> ClashFree(st, cmds[0]) && ClashFreeRun(cfg, Apply(cfg, st, cmds[0]), cmds[1..])
  }

  lemma PairEffectHash(cfg: Config, hash: string -> nat, source: Slot, target: Slot, args: seq<string>)
    requires SlotOk(source) && SlotOk(target)
    requires CommandName(args) == "RENAME" && |args| == 3 ==>
      (ZSetClash(source, target) ==> source.scores == target.scores)
    ensures PairEffect(cfg.(hash := hash), source, target, args) == PairEffect(cfg, source, target, args)
  {
    hide SlotOk, ZSetClash, RenameSlots, RenameNxSlots;
    RenameSlotsAgreeIff(source, target);
    RenameNxSlotsAgree(source, target);
  }

  lemma ApplySameHash(cfg: Config, hash: string -> nat, st: Abs, args: seq<string>)
    requires StateOk(st) && ClashFree(st, args)
    ensures Apply(cfg.(hash := hash), st, args) == Apply(cfg, st, args)
  {
    hide SlotOk, PairEffect, ZSetClash;
    var view := st.views[st.db];
    if |args| >= 3 && args[1] != args[2] {
      PairEffectHash(cfg, hash, view[args[1]], view[args[2]], args);
    }
  }

  /** One command that meets no clash does the same under two placements of the names exactly
      when under both, or under neither, it uses a stale reference. */
  lemma ApplyHashIff(cfg: Config, hash: string -> nat, st: Abs, args: seq<string>, grows: bool)
    requires StateOk(st) && ClashFree(st, args)
    ensures (Outcome(cfg.(hash := hash), st, args, grows) == Outcome(cfg, st, args, grows))
       <==> (StaleAt(cfg.(hash := hash), st.views[st.db], args, grows) <==> StaleAt(cfg, st.views[st.db], args, grows))
  {
    hide Apply, StaleAt, ClashFree, ViewOk;
    ApplySameHash(cfg, hash, st, args);
  }

  lemma {:induction false} RunSameHash(cfg: Config, hash: string -> nat, st: Abs, cmds: seq<seq<string>>)
    requires StateOk(st) && ClashFreeRun(cfg, st, cmds)
    ensures ApplyAll(cfg.(hash := hash), st, cmds) == ApplyAll(cfg, st, cmds)
    decreases |cmds|
  {
    if cmds != [] {
      hide Apply, ClashFree;
      ApplySameHash(cfg, hash, st, cmds[0]);
      ApplyOk(cfg, st, cmds[0]);
      RunSameHash(cfg, hash, Apply(cfg, st, cmds[0]), cmds[1..]);
    }
  }

  /** A whole run without a clash that is defined under two placements of the names looks the
      same under both; under a placement that keeps apart every pair of names it moves between,
      it is defined whatever grows. */
  lemma RunHash(cfg: Config, hash: string -> nat, st: Abs, cmds: seq<seq<string>>, grows: nat -> bool)
    requires StateOk(st) && ClashFreeRun(cfg, st, cmds)
    ensures RunOutcome(cfg.(hash := hash), st, cmds, grows, 0).Some? && RunOutcome(cfg, st, cmds, grows, 0).Some? ==>
      RunOutcome(cfg.(hash := hash), st, cmds, grows, 0) == RunOutcome(cfg, st, cmds, grows, 0)
    ensures (forall i :: 0 <= i < |cmds| ==> KeptApart(hash, cmds[i])) ==>
      RunOutcome(cfg.(hash := hash), st, cmds, grows, 0).Some?
  {
    hide ApplyAll, RunOutcome, ClashFreeRun, ViewOk;
    RunSameHash(cfg, hash, st, cmds);
    DefinedRunApplies(cfg.(hash := hash), st, cmds, grows, 0);
    DefinedRunApplies(cfg, st, cmds, grows, 0);
    if forall i :: 0 <= i < |cmds| ==> KeptApart(hash, cmds[i]) {
      ApartDefined(cfg.(hash := hash), st, cmds, grows, 0);
    }
  }

  predicate KeptApart(hash: string -> nat, args: seq<string>) {
    |args| >= 3 && args[1] != args[2] ==> !SameShard(hash, args[1], args[2])
  }

  lemma {:induction false} ApartDefined(cfg: Config, st: Abs, cmds: seq<seq<string>>, grows: nat -> bool, n: nat)
    requires AbsOk(st) && forall i :: 0 <= i < |cmds| ==> KeptApart(cfg.hash, cmds[i])
    ensures RunOutcome(cfg, st, cmds, grows, n).Some?
    decreases |cmds|
  {
    hide Apply, SameShard;
    if cmds != [] {
      assert KeptApart(cfg.hash, cmds[0]);
      ApartDefined(cfg, Apply(cfg, st, cmds[0]), cmds[1..], grows, n + 1);
    }
  }

  /** And a single clash is enough to tell them apart. */
  lemma ClashShowsShards(cfg: Config, st: Abs, args: seq<string>, apart: string -> nat, together: string -> nat)
    requires StateOk(st) && |args| == 3 && args[1] != args[2] && CommandName(args) == "RENAME"
    requires !ClashFree(st, args)
    requires !SameShard(apart, args[1], args[2]) && SameShard(together, args[1], args[2])
    ensures Apply(cfg.(hash := apart), st, args) != Apply(cfg.(hash := together), st, args)
  {
    hide RenameSlots, ZSetClash, NextView, SameShard;
    var view := st.views[st.db];
    RenameSlotsAgreeIff(view[args[1]], view[args[2]]);
    RenameOnView(cfg.(hash := apart), view, args);
    RenameOnView(cfg.(hash := together), view, args);
    var a, b := Apply(cfg.(hash := apart), st, args), Apply(cfg.(hash := together), st, args);
    assert a.views[st.db][args[1]] != b.views[st.db][args[1]] || a.views[st.db][args[2]] != b.views[st.db][args[2]];
  }

  lemma RenameOnView(cfg: Config, view: FlatDb, args: seq<string>)
    requires Total(view) && |args| == 3 && args[1] != args[2] && CommandName(args) == "RENAME"
    ensures var pair := RenameSlots(view[args[1]], view[args[2]], SameShard(cfg.hash, args[1], args[2]));
      NextView(cfg, view, args)[args[1]] == pair.0 && NextView(cfg, view, args)[args[2]] == pair.1
  {
    hide RenameSlots;
  }

  // ---------- which texts the data can come to hold ----------

  ghost predicate SlotTexts(slot: Slot, p: string -> bool) {
    && (slot.store.Some? ==> p(slot.store.value.val))
    && (slot.hash.Some? ==> forall f :: f in slot.hash.value ==> p(f) && p(slot.hash.value[f]))
    && (slot.list.Some? ==> forall v :: v in slot.list.value ==> p(v))
    && (slot.members.Some? ==> forall v :: v in slot.members.value ==> p(v))
    && (slot.scores.Some? ==> forall m :: m in slot.scores.value ==> p(m))
  }

  /** Every name, field, value and member satisfies p. */
  ghost predicate ViewTexts(view: FlatDb, p: string -> bool) {
    forall k: string :: k in view && view[k] != EMPTY_SLOT ==> p(k) && SlotTexts(view[k], p)
  }

  ghost predicate ArgTexts(args: seq<string>, p: string -> bool) {
    forall i :: 0 <= i < |args| ==> p(args[i])
  }

  lemma {:induction false} WithFieldsTexts(fields: map<string, string>, args: seq<string>, i: nat, p: string -> bool)
    requires ArgTexts(args, p) && forall f :: f in fields ==> p(f) && p(fields[f])
    ensures forall f :: f in WithFields(fields, args, i) ==> p(f) && p(WithFields(fields, args, i)[f])
    decreases |args| - i
  {
    if i + 1 < |args| {
      WithFieldsTexts(fields[args[i] := args[i + 1]], args, i + 2, p);
    }
  }

  lemma {:induction false} ZAddTexts(text: ScoreText, z: seq<ZKey>, scores: map<string, Score>, args: seq<string>,
                                     i: nat, p: string -> bool)
    requires ArgTexts(args, p) && forall m :: m in scores ==> p(m)
    ensures forall m :: m in ZAddPairs(text, z, scores, args, i).1 ==> p(m)
    decreases |args| - i
  {
    if i + 1 < |args| && text.parse(args[i]).Some? {
      var score := text.parse(args[i]).value;
      ZAddTexts(text, ZPut(z, scores, args[i + 1], score), scores[args[i + 1] := score], args, i + 2, p);
    }
  }

  lemma StringAndListTexts(slot: Slot, args: seq<string>, expire: Option<int>, p: string -> bool)
    requires SlotTexts(slot, p) && ArgTexts(args, p) && |args| >= 3
    ensures SlotTexts(slot.(store := Some(StoreData(args[2], expire))), p)
    ensures SlotTexts(RPushSlot(slot, args[2..]), p)
  {
  }

  lemma HashTexts(slot: Slot, args: seq<string>, fields: set<string>, p: string -> bool)
    requires SlotTexts(slot, p) && ArgTexts(args, p)
    ensures SlotTexts(HSetSlot(slot, args), p)
    ensures SlotTexts(HDelSlot(slot, fields), p)
  {
    WithFieldsTexts(OrElse(slot.hash, map[]), args, 2, p);
  }

  lemma SetTexts(slot: Slot, args: seq<string>, p: string -> bool)
    requires SlotTexts(slot, p) && ArgTexts(args, p) && |args| >= 2
    ensures SlotTexts(SAddSlot(slot, SetOf(args[2..])), p)
    ensures SlotTexts(SRemSlot(slot, SetOf(args[2..])), p)
  {
    assert forall m :: m in SetOf(args[2..]) ==> p(m);
    hide SetOf;
  }

  lemma ZSetTexts(text: ScoreText, slot: Slot, args: seq<string>, members: set<string>, member: string,
                  incr: Score, p: string -> bool)
    requires SlotTexts(slot, p) && ArgTexts(args, p)
    ensures SlotTexts(ZAddSlot(text, slot, args), p)
    ensures SlotTexts(ZDropSlot(slot, members), p)
    ensures SlotTexts(ZIncrSlot(slot, member, incr), p)
  {
    hide ZAddPairs, Without, ZPut;
    ZAddTexts(text, OrElse(slot.zset, []), OrElse(slot.scores, map[]), args, 2, p);
  }

  lemma SlotEffectTexts(cfg: Config, slot: Slot, args: seq<string>, p: string -> bool)
    requires SlotTexts(slot, p) && ArgTexts(args, p)
    ensures SlotEffect(cfg, slot, args).Some? ==> SlotTexts(SlotEffect(cfg, slot, args).value, p)
  {
    hide SlotTexts, SetExpiry, Increment, InRange, SetOf, HSetSlot, HDelSlot, RPushSlot, SAddSlot, SRemSlot, ZAddSlot, ZDropSlot, ZIncrSlot;
    var n := |args|;
    if n >= 3 {
      var expire := SetExpiry(args, cfg.now);
      StringAndListTexts(slot, args, if expire.Some? then expire.value else None, p);
      HashTexts(slot, args, SetOf(args[2..]), p);
      SetTexts(slot, args, p);
      ZSetTexts(cfg.text, slot, args, SetOf(args[2..]), "", 0, p);
      if n == 4 {
        var incr, lo, hi := Increment(cfg.text, CommandName(args), args[2]), cfg.text.parse(args[2]), cfg.text.parse(args[3]);
        var range := if lo.Some? && hi.Some? then InRange(OrElse(slot.scores, map[]), lo.value, hi.value) else {};
        ZSetTexts(cfg.text, slot, args, range, args[3], if incr.Some? then incr.value else 0, p);
      }
    }
  }

  lemma RenameTexts(source: Slot, target: Slot, sameShard: bool, p: string -> bool)
    requires SlotTexts(source, p) && SlotTexts(target, p)
    ensures var pair := RenameSlots(source, target, sameShard); SlotTexts(pair.0, p) && SlotTexts(pair.1, p)
    ensures var pair := RenameNxSlots(source, target, sameShard); SlotTexts(pair.0, p) && SlotTexts(pair.1, p)
  {
    if FirstKind(source).Some? {
      var kind := FirstKind(source).value;
      EraseTexts(source, kind, p);
      MoveTexts(kind, source, target, sameShard, p);
      if FirstKind(target).Some? {
        EraseTexts(target, FirstKind(target).value, p);
      }
      MoveTexts(kind, source, EraseFirst(target), sameShard, p);
      hide SlotTexts, FirstKind, EraseKind, MoveKind;
    }
  }

  lemma EraseTexts(slot: Slot, kind: Kind, p: string -> bool)
    requires SlotTexts(slot, p)
    ensures SlotTexts(EraseKind(slot, kind), p)
  {
  }

  lemma MoveTexts(kind: Kind, source: Slot, target: Slot, sameShard: bool, p: string -> bool)
    requires SlotTexts(source, p) && SlotTexts(target, p)
    ensures SlotTexts(MoveKind(kind, source, target, sameShard), p)
  {
    TakeTexts(source, target, p);
    hide SlotTexts;
  }

  lemma TakeTexts(source: Slot, target: Slot, p: string -> bool)
    requires SlotTexts(source, p) && SlotTexts(target, p)
    ensures SlotTexts(target.(store := source.store), p) && SlotTexts(target.(hash := source.hash), p)
    ensures SlotTexts(target.(list := source.list), p) && SlotTexts(target.(members := source.members), p)
    ensures forall z :: SlotTexts(target.(zset := z, scores := source.scores), p)
    ensures forall z :: SlotTexts(target.(zset := z, scores := target.scores), p)
  {
  }

  lemma SMoveTexts(source: Slot, target: Slot, member: string, p: string -> bool)
    requires SlotTexts(source, p) && SlotTexts(target, p) && p(member)
    ensures var pair := SMoveSlots(source, target, member); SlotTexts(pair.0, p) && SlotTexts(pair.1, p)
  {
    var into := OrElse(target.members, {});
    MembersTexts(target, into, p);
    MembersTexts(target, into + {member}, p);
    if source.members.Some? {
      MembersTexts(source, source.members.value - {member}, p);
    }
    hide SlotTexts;
  }

  lemma MembersTexts(slot: Slot, members: set<string>, p: string -> bool)
    requires SlotTexts(slot, p) && forall v :: v in members ==> p(v)
    ensures SlotTexts(slot.(members := Some(members)), p) && SlotTexts(slot.(members := None), p)
  {
  }

  lemma PairEffectTexts(cfg: Config, source: Slot, target: Slot, args: seq<string>, p: string -> bool)
    requires SlotTexts(source, p) && SlotTexts(target, p) && ArgTexts(args, p)
    ensures match PairEffect(cfg, source, target, args)
      case Some(pair) => SlotTexts(pair.0, p) && SlotTexts(pair.1, p)
      case None => true
  {
    hide SlotTexts, RenameSlots, RenameNxSlots, SMoveSlots;
    if |args| >= 3 {
      RenameTexts(source, target, SameShard(cfg.hash, args[1], args[2]), p);
    }
    if |args| == 4 {
      SMoveTexts(source, target, args[3], p);
    }
  }

  /** A command whose arguments all satisfy p brings in no text that does not. */
  lemma NextViewTexts(cfg: Config, view: FlatDb, args: seq<string>, p: string -> bool)
    requires Total(view) && ViewTexts(view, p) && ArgTexts(args, p)
    ensures ViewTexts(NextView(cfg, view, args), p)
  {
    hide SlotEffect, PairEffect, SlotTexts, SetOf;
    NoTexts(p);
    if |args| >= 2 && !IsFlush(args) {
      if CommandName(args) == "DEL" {
        DelTexts(view, SetOf(args[1..]), p);
      } else {
        SlotEffectTexts(cfg, view[args[1]], args, p);
        if |args| >= 3 {
          PairEffectTexts(cfg, view[args[1]], view[args[2]], args, p);
        }
      }
    }
  }

  lemma NoTexts(p: string -> bool)
    ensures SlotTexts(EMPTY_SLOT, p)
  {
  }

  lemma DelTexts(view: FlatDb, keys: set<string>, p: string -> bool)
    requires Total(view) && ViewTexts(view, p)
    ensures ViewTexts(DelView(view, keys), p)
  {
  }

  ghost predicate StateTexts(st: Abs, p: string -> bool) {
    forall d :: 0 <= d < |st.views| ==> ViewTexts(st.views[d], p)
  }

  lemma {:induction false} RunTexts(cfg: Config, st: Abs, cmds: seq<seq<string>>, p: string -> bool)
    requires AbsOk(st) && StateTexts(st, p) && forall i :: 0 <= i < |cmds| ==> ArgTexts(cmds[i], p)
    ensures StateTexts(ApplyAll(cfg, st, cmds), p)
    decreases |cmds|
  {
    if cmds != [] {
      hide NextView, ViewTexts;
      NextViewTexts(cfg, st.views[st.db], cmds[0], p);
      RunTexts(cfg, Apply(cfg, st, cmds[0]), cmds[1..], p);
    }
  }
}
