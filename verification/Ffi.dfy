/** Ownership across the C++/Rust boundary: move-only holders around memory that
    only Rust may free. The heap of the Rust side is a ledger of allocations, and
    anything C++ or Rust leave undefined is the outcome `Undefined`. */
module Ffi {
  import opened Prelude

  type Addr = nat
  type Ptr = nat

  /** What a Rust allocation holds. `BytesBox` and `ErrorBox` point to a buffer of their own. */
  datatype Kind = BuilderBox | ConfigBox | BytesBox | ErrorBox

  /** The separate buffer behind `data`; an empty slice has none. */
  datatype Contents = NoContents | LiveContents | FreedContents

  datatype Allocation = Allocation(kind: Kind, live: bool, contents: Contents)

  /** A C++ holder object: `SessionConfigHolder`, `SessionConfigBuilderHolder` (also as the only
      member of a `SessionConfigBuilder`) or `RustBytes`. */
  datatype Holder = Holder(kind: Kind, ptr: Option<Ptr>)

  /** `raw` are the pointers in the hands of C++ code outside any holder. */
  datatype World = World(holders: map<Addr, Holder>, ledger: map<Ptr, Allocation>, raw: set<Ptr>, next: Ptr)

  const EMPTY := World(map[], map[], {}, 0)

  datatype Result = Defined(world: World) | Undefined {
    predicate IsFailure() {
      Undefined?
    }

    function PropagateFailure(): (r: Result)
      requires Undefined?
    {
      this
    }

    function Extract(): World
      requires Defined?
    {
      world
    }
  }

  // ---------- What the operations are made of ----------

  /** `Box::into_raw(Box::new(..))`: a new allocation whose pointer, `w.next`, goes to C++. */
  function Allocate(w: World, kind: Kind, empty: bool): (r: World) {
    var contents := if empty then NoContents else LiveContents;
    w.(ledger := w.ledger[w.next := Allocation(kind, true, contents)], raw := w.raw + {w.next}, next := w.next + 1)
  }

  /** Passing a pointer back to Rust, which takes the box and its contents. Null is never passed;
      passing anything but a live box of this kind with its contents is undefined. */
  function GiveBack(w: World, p: Option<Ptr>, kind: Kind): (r: Result)
    ensures r.Defined? ==> r.world.holders == w.holders && r.world.next == w.next
  {
    match p
    case None => Defined(w)
    case Some(q) =>
      if q !in w.ledger || !w.ledger[q].live || w.ledger[q].kind != kind || w.ledger[q].contents.FreedContents? then
        Undefined
      else
        var contents := if w.ledger[q].contents.LiveContents? then FreedContents else NoContents;
        Defined(w.(ledger := w.ledger[q := Allocation(kind, false, contents)], raw := w.raw - {q}))
  }

  /** Reading through a pointer. */
  function Read(w: World, p: Option<Ptr>, kind: Kind): (r: Result)
    ensures r.Defined? ==> r.world == w
  {
    if p.Some? && p.value in w.ledger && w.ledger[p.value].live && w.ledger[p.value].kind == kind
       && !w.ledger[p.value].contents.FreedContents?
    then Defined(w) else Undefined
  }

  function PtrOf(w: World, a: Addr): (r: Option<Ptr>)
    requires a in w.holders
  {
    w.holders[a].ptr
  }

  /** `release()`: the holder becomes null and its pointer is left with the caller. */
  function Take(w: World, a: Addr): (r: World)
    requires a in w.holders
    ensures r.holders.Keys == w.holders.Keys && r.holders[a].ptr == None && r.next == w.next
    ensures forall b :: b in w.holders ==> r.holders[b].kind == w.holders[b].kind
  {
    match PtrOf(w, a)
    case None => w
    case Some(p) => w.(holders := w.holders[a := w.holders[a].(ptr := None)], raw := w.raw + {p})
  }

  /** A null holder takes over a pointer. */
  function Put(w: World, a: Addr, p: Option<Ptr>): (r: World)
    requires a in w.holders
    ensures r.holders.Keys == w.holders.Keys && r.next == w.next
    ensures forall b :: b in w.holders ==> r.holders[b].kind == w.holders[b].kind
  {
    match p
    case None => w
    case Some(q) => w.(holders := w.holders[a := w.holders[a].(ptr := p)], raw := w.raw - {q})
  }

  /** A new holder object, still null. */
  function Construct(w: World, at: Addr, kind: Kind): (r: World) {
    w.(holders := w.holders[at := Holder(kind, None)])
  }

  // ---------- Operations ----------

  /** What a Rust call that returns `ErrorOrRustBytes` produced; `empty` when the slice has no bytes. */
  datatype Reply = OkReply(empty: bool) | ErrReply(empty: bool) | NullReply

  datatype Op =
    | NewBuilder(at: Addr)
    | MoveConstruct(at: Addr, source: Addr)
    | MoveAssign(target: Addr, source: Addr)
    | Release(self: Addr)
    | Adopt(at: Addr, kind: Kind, ptr: Option<Ptr>)
    | AddOrSet(self: Addr, at: Addr)
    | Build(self: Addr)
    | BuildHolder(self: Addr, at: Addr)
    | HandOff(passed: Ptr)
    | ReceiveRaw(kind: Kind)
    | Receive(at: Addr, reply: Reply)
    | View(self: Addr)
    | Destroy(self: Addr)

  /** C++ scoping: operands exist and have the right type, new objects get fresh addresses, raw
      pointers passed on are held. Only builders and bytes can be constructed from a raw pointer. */
  predicate WellScoped(w: World, op: Op) {
    match op
    case NewBuilder(at) => at !in w.holders
    case MoveConstruct(at, source) => at !in w.holders && source in w.holders
    case MoveAssign(target, source) =>
      target in w.holders && source in w.holders && w.holders[target].kind == w.holders[source].kind
    case Release(self) => self in w.holders && (w.holders[self].kind.BuilderBox? || w.holders[self].kind.ConfigBox?)
    case Adopt(at, kind, ptr) =>
      && at !in w.holders && (kind.BuilderBox? || kind.BytesBox?)
      && (ptr.Some? ==> ptr.value in w.raw && ptr.value in w.ledger && w.ledger[ptr.value].kind == kind)
    case AddOrSet(self, at) => self in w.holders && w.holders[self].kind.BuilderBox? && at !in w.holders
    case Build(self) => self in w.holders && w.holders[self].kind.BuilderBox?
    case BuildHolder(self, at) => self in w.holders && w.holders[self].kind.BuilderBox? && at !in w.holders
    case HandOff(passed) => passed in w.raw && passed in w.ledger
    case ReceiveRaw(kind) => kind.BuilderBox? || kind.ConfigBox?
    case Receive(at, _) => at !in w.holders
    case View(self) => self in w.holders && w.holders[self].kind.BytesBox?
    case Destroy(self) => self in w.holders
  }

  function MoveInto(w: World, target: Addr, source: Addr): (r: World)
    requires target in w.holders && source in w.holders
  {
    Put(Take(w, source), target, PtrOf(w, source))
  }

  /** The move assignment of all three holders. */
  function Assign(w: World, target: Addr, source: Addr): (r: Result)
    requires target in w.holders && source in w.holders
    ensures r.Defined? ==> r.world.holders.Keys == w.holders.Keys
  {
    if target == source then Defined(w)
    else
      var freed :- GiveBack(Take(w, target), PtrOf(w, target), w.holders[target].kind);
      Defined(MoveInto(freed, target, source))
  }

  /** A call that consumes the builder of `self` and returns a new allocation; without a builder
      nothing is called. The new pointer, if any, is left with the caller. */
  function Exchange(w: World, self: Addr, kind: Kind): (r: Result)
    requires self in w.holders
    ensures r.Defined? ==> r.world.holders.Keys == w.holders.Keys
  {
    if PtrOf(w, self).None? then Defined(w)
    else
      var consumed :- GiveBack(Take(w, self), PtrOf(w, self), BuilderBox);
      Defined(Allocate(consumed, kind, true))
  }

  /** The pointer `Exchange` returned. */
  function Exchanged(w: World, self: Addr): (r: Option<Ptr>)
    requires self in w.holders
  {
    if PtrOf(w, self).None? then None else Some(w.next)
  }

  /** One operation, statement by statement as the code has them. */
  function Step(w: World, op: Op): (r: Result)
    requires WellScoped(w, op)
  {
    match op
    case NewBuilder(at) => Defined(Put(Allocate(Construct(w, at, BuilderBox), BuilderBox, true), at, Some(w.next)))
    case MoveConstruct(at, source) => Defined(MoveInto(Construct(w, at, w.holders[source].kind), at, source))
    case MoveAssign(target, source) => Assign(w, target, source)
    case Release(self) => Defined(Take(w, self))
    case Adopt(at, kind, ptr) => Defined(Put(Construct(w, at, kind), at, ptr))
    case AddOrSet(self, at) =>
      // The builder is replaced by the one Rust returns, then the whole object is moved out.
      var replaced :- Exchange(w, self, BuilderBox);
      Defined(MoveInto(Construct(Put(replaced, self, Exchanged(w, self)), at, BuilderBox), at, self))
    case Build(self) => Exchange(w, self, ConfigBox)
    case BuildHolder(self, at) =>
      var built :- Exchange(w, self, ConfigBox);
      Defined(Put(Construct(built, at, ConfigBox), at, Exchanged(w, self)))
    case HandOff(passed) => GiveBack(w, Some(passed), w.ledger[passed].kind)
    case ReceiveRaw(kind) => Defined(Allocate(w, kind, true))
    case Receive(at, reply) =>
      (match reply
       case NullReply => Defined(w)
       case OkReply(empty) => Defined(Put(Construct(Allocate(w, BytesBox, empty), at, BytesBox), at, Some(w.next)))
       case ErrReply(empty) =>
         var read :- Read(Allocate(w, ErrorBox, empty), Some(w.next), ErrorBox);
         GiveBack(read, Some(w.next), ErrorBox))
    case View(self) => Read(w, PtrOf(w, self), BytesBox)
    case Destroy(self) =>
      var freed :- GiveBack(Take(w, self), PtrOf(w, self), w.holders[self].kind);
      Defined(freed.(holders := freed.holders - {self}))
  }

  // ---------- The ownership invariant ----------

  datatype Owner = HeldAt(addr: Addr) | InHand

  /** `own` names the one owner of every live allocation. */
  ghost predicate Owned(w: World, own: map<Ptr, Owner>) {
    && (forall p :: p in own <==> p in w.ledger && w.ledger[p].live)
    && (forall p :: p in own && own[p].HeldAt? ==>
          own[p].addr in w.holders && w.holders[own[p].addr] == Holder(w.ledger[p].kind, Some(p)))
    && (forall p :: p in own && own[p].InHand? ==> p in w.raw)
    && (forall a :: a in w.holders && w.holders[a].ptr.Some? ==>
          w.holders[a].ptr.value in own && own[w.holders[a].ptr.value] == HeldAt(a))
    && (forall p :: p in w.raw ==> p in own && own[p] == InHand)
  }

  /** A box and its contents live and die together, and pointers are never reused. */
  ghost predicate Consistent(w: World) {
    && (forall p :: p in w.ledger ==> p < w.next)
    && (forall p :: p in w.ledger ==>
          if w.ledger[p].live then !w.ledger[p].contents.FreedContents? else !w.ledger[p].contents.LiveContents?)
  }

  ghost predicate Inv(w: World) {
    Consistent(w) && exists own :: Owned(w, own)
  }

  lemma AllocateKeeps(w: World, own: map<Ptr, Owner>, kind: Kind, empty: bool)
    requires Owned(w, own) && Consistent(w)
    ensures Owned(Allocate(w, kind, empty), own[w.next := InHand]) && Consistent(Allocate(w, kind, empty))
  {
  }

  lemma TakeKeeps(w: World, own: map<Ptr, Owner>, a: Addr)
    requires Owned(w, own) && Consistent(w) && a in w.holders
    ensures Consistent(Take(w, a))
    ensures Owned(Take(w, a), if PtrOf(w, a).Some? then own[PtrOf(w, a).value := InHand] else own)
  {
  }

  lemma PutKeeps(w: World, own: map<Ptr, Owner>, a: Addr, p: Option<Ptr>)
    requires Owned(w, own) && Consistent(w) && a in w.holders && w.holders[a].ptr.None?
    requires p.Some? ==> p.value in w.raw && w.ledger[p.value].kind == w.holders[a].kind
    ensures Consistent(Put(w, a, p))
    ensures Owned(Put(w, a, p), if p.Some? then own[p.value := HeldAt(a)] else own)
  {
  }

  lemma ConstructKeeps(w: World, own: map<Ptr, Owner>, at: Addr, kind: Kind)
    requires Owned(w, own) && Consistent(w) && at !in w.holders
    ensures Owned(Construct(w, at, kind), own) && Consistent(Construct(w, at, kind))
  {
  }

  lemma GiveBackKeeps(w: World, own: map<Ptr, Owner>, p: Option<Ptr>, kind: Kind)
    requires Owned(w, own) && Consistent(w)
    requires p.Some? ==> p.value in w.raw && w.ledger[p.value].kind == kind
    ensures GiveBack(w, p, kind).Defined? && Consistent(GiveBack(w, p, kind).world)
    ensures Owned(GiveBack(w, p, kind).world, if p.Some? then own - {p.value} else own)
  {
  }

  lemma MoveIntoKeeps(w: World, own: map<Ptr, Owner>, target: Addr, source: Addr) returns (after: map<Ptr, Owner>)
    requires Owned(w, own) && Consistent(w) && target in w.holders && source in w.holders
    requires w.holders[target].ptr.None? || target == source
    requires w.holders[target].kind == w.holders[source].kind
    ensures Owned(MoveInto(w, target, source), after) && Consistent(MoveInto(w, target, source))
  {
    var p := PtrOf(w, source);
    after := if p.Some? then own[p.value := InHand] else own;
    TakeKeeps(w, own, source);
    PutKeeps(Take(w, source), after, target, p);
    after := if p.Some? then after[p.value := HeldAt(target)] else after;
  }

  /** Freeing what a holder holds is always defined. */
  lemma FreeHeldKeeps(w: World, own: map<Ptr, Owner>, a: Addr) returns (after: map<Ptr, Owner>)
    requires Owned(w, own) && Consistent(w) && a in w.holders
    ensures var r := GiveBack(Take(w, a), PtrOf(w, a), w.holders[a].kind);
      r.Defined? && Owned(r.world, after) && Consistent(r.world)
  {
    var p := PtrOf(w, a);
    after := if p.Some? then own[p.value := InHand] else own;
    TakeKeeps(w, own, a);
    GiveBackKeeps(Take(w, a), after, p, w.holders[a].kind);
    after := if p.Some? then after - {p.value} else after;
  }

  lemma ExchangeKeeps(w: World, own: map<Ptr, Owner>, self: Addr, kind: Kind) returns (after: map<Ptr, Owner>)
    requires Owned(w, own) && Consistent(w) && self in w.holders && w.holders[self].kind.BuilderBox?
    ensures var r := Exchange(w, self, kind);
      && r.Defined? && Owned(r.world, after) && Consistent(r.world)
      && r.world.holders.Keys == w.holders.Keys && r.world.holders[self] == Holder(BuilderBox, None)
      && (Exchanged(w, self).Some? ==> w.next in r.world.raw && r.world.ledger[w.next].kind == kind)
  {
    after := own;
    if PtrOf(w, self).Some? {
      after := FreeHeldKeeps(w, own, self);
      var consumed := GiveBack(Take(w, self), PtrOf(w, self), BuilderBox).world;
      AllocateKeeps(consumed, after, kind, true);
      after := after[consumed.next := InHand];
    }
  }

  /** Reading through a moved-from `RustBytes` is the one thing the holders leave to the programmer. */
  predicate ReadsMovedFrom(w: World, op: Op) {
    op.View? && op.self in w.holders && w.holders[op.self].ptr.None?
  }

  lemma AssignKeeps(w: World, own: map<Ptr, Owner>, target: Addr, source: Addr) returns (after: map<Ptr, Owner>)
    requires Owned(w, own) && Consistent(w) && target in w.holders && source in w.holders
    requires w.holders[target].kind == w.holders[source].kind
    ensures var r := Assign(w, target, source); r.Defined? && Owned(r.world, after) && Consistent(r.world)
  {
    after := own;
    if target != source {
      after := FreeHeldKeeps(w, own, target);
      var freed := GiveBack(Take(w, target), PtrOf(w, target), w.holders[target].kind).world;
      after := MoveIntoKeeps(freed, after, target, source);
    }
  }

  lemma AddOrSetKeeps(w: World, own: map<Ptr, Owner>, self: Addr, at: Addr) returns (after: map<Ptr, Owner>)
    requires Owned(w, own) && Consistent(w) && WellScoped(w, AddOrSet(self, at))
    ensures var r := Step(w, AddOrSet(self, at)); r.Defined? && Owned(r.world, after) && Consistent(r.world)
  {
    hide Owned, Consistent;
    after := ExchangeKeeps(w, own, self, BuilderBox);
    var replaced, q := Exchange(w, self, BuilderBox).world, Exchanged(w, self);
    PutKeeps(replaced, after, self, q);
    after := if q.Some? then after[q.value := HeldAt(self)] else after;
    var stored := Put(replaced, self, q);
    ConstructKeeps(stored, after, at, BuilderBox);
    after := MoveIntoKeeps(Construct(stored, at, BuilderBox), after, at, self);
  }

  lemma BuildHolderKeeps(w: World, own: map<Ptr, Owner>, self: Addr, at: Addr) returns (after: map<Ptr, Owner>)
    requires Owned(w, own) && Consistent(w) && WellScoped(w, BuildHolder(self, at))
    ensures var r := Step(w, BuildHolder(self, at)); r.Defined? && Owned(r.world, after) && Consistent(r.world)
  {
    hide Owned, Consistent;
    after := ExchangeKeeps(w, own, self, ConfigBox);
    var built, q := Exchange(w, self, ConfigBox).world, Exchanged(w, self);
    ConstructKeeps(built, after, at, ConfigBox);
    PutKeeps(Construct(built, at, ConfigBox), after, at, q);
    after := if q.Some? then after[q.value := HeldAt(at)] else after;
  }

  lemma ReceiveKeeps(w: World, own: map<Ptr, Owner>, at: Addr, reply: Reply) returns (after: map<Ptr, Owner>)
    requires Owned(w, own) && Consistent(w) && WellScoped(w, Receive(at, reply))
    ensures var r := Step(w, Receive(at, reply)); r.Defined? && Owned(r.world, after) && Consistent(r.world)
  {
    match reply
    case NullReply => after := own;
    case OkReply(empty) =>
      AllocateKeeps(w, own, BytesBox, empty);
      var boxed := Allocate(w, BytesBox, empty);
      ConstructKeeps(boxed, own[w.next := InHand], at, BytesBox);
      PutKeeps(Construct(boxed, at, BytesBox), own[w.next := InHand], at, Some(w.next));
      after := own[w.next := InHand][w.next := HeldAt(at)];
    case ErrReply(empty) =>
      AllocateKeeps(w, own, ErrorBox, empty);
      GiveBackKeeps(Allocate(w, ErrorBox, empty), own[w.next := InHand], Some(w.next), ErrorBox);
      after := own[w.next := InHand] - {w.next};
  }

  lemma NewBuilderKeeps(w: World, own: map<Ptr, Owner>, at: Addr) returns (after: map<Ptr, Owner>)
    requires Owned(w, own) && Consistent(w) && at !in w.holders
    ensures var r := Step(w, NewBuilder(at)); r.Defined? && Owned(r.world, after) && Consistent(r.world)
  {
    ConstructKeeps(w, own, at, BuilderBox);
    AllocateKeeps(Construct(w, at, BuilderBox), own, BuilderBox, true);
    after := own[w.next := InHand];
    PutKeeps(Allocate(Construct(w, at, BuilderBox), BuilderBox, true), after, at, Some(w.next));
    after := after[w.next := HeldAt(at)];
  }

  lemma DestroyKeeps(w: World, own: map<Ptr, Owner>, self: Addr) returns (after: map<Ptr, Owner>)
    requires Owned(w, own) && Consistent(w) && self in w.holders
    ensures var r := Step(w, Destroy(self)); r.Defined? && Owned(r.world, after) && Consistent(r.world)
  {
    after := FreeHeldKeeps(w, own, self);
  }

  lemma ReadHeld(w: World, own: map<Ptr, Owner>, self: Addr)
    requires Owned(w, own) && Consistent(w) && WellScoped(w, View(self))
    ensures Step(w, View(self)).Defined? <==> !ReadsMovedFrom(w, View(self))
  {
  }

  /** The operations of all holders. */
  predicate OfAnyHolder(op: Op) {
    op.MoveConstruct? || op.MoveAssign? || op.Release? || op.Adopt? || op.HandOff? || op.View? || op.Destroy?
  }

  lemma HolderStepKeeps(w: World, own: map<Ptr, Owner>, op: Op) returns (after: map<Ptr, Owner>)
    requires Owned(w, own) && Consistent(w) && WellScoped(w, op) && OfAnyHolder(op)
    ensures Step(w, op).Defined? <==> !ReadsMovedFrom(w, op)
    ensures Step(w, op).Defined? ==> Owned(Step(w, op).world, after) && Consistent(Step(w, op).world)
  {
    hide Owned, Consistent, GiveBack, Take, Put;
    after := own;
    match op
    case MoveConstruct(at, source) =>
      ConstructKeeps(w, own, at, w.holders[source].kind);
      after := MoveIntoKeeps(Construct(w, at, w.holders[source].kind), own, at, source);
    case MoveAssign(target, source) => after := AssignKeeps(w, own, target, source);
    case Release(self) =>
      TakeKeeps(w, own, self);
      after := if PtrOf(w, self).Some? then own[PtrOf(w, self).value := InHand] else own;
    case Adopt(at, kind, ptr) =>
      ConstructKeeps(w, own, at, kind);
      PutKeeps(Construct(w, at, kind), own, at, ptr);
      after := if ptr.Some? then own[ptr.value := HeldAt(at)] else own;
    case HandOff(passed) =>
      GiveBackKeeps(w, own, Some(passed), w.ledger[passed].kind);
      after := own - {passed};
    case View(self) => ReadHeld(w, own, self);
    case Destroy(self) => after := DestroyKeeps(w, own, self);
  }

  lemma BuilderStepKeeps(w: World, own: map<Ptr, Owner>, op: Op) returns (after: map<Ptr, Owner>)
    requires Owned(w, own) && Consistent(w) && WellScoped(w, op) && !OfAnyHolder(op)
    ensures Step(w, op).Defined? && !ReadsMovedFrom(w, op)
    ensures Owned(Step(w, op).world, after) && Consistent(Step(w, op).world)
  {
    hide Owned, Consistent, GiveBack, Allocate, Take, Put, Construct;
    match op
    case NewBuilder(at) => after := NewBuilderKeeps(w, own, at);
    case AddOrSet(self, at) => after := AddOrSetKeeps(w, own, self, at);
    case Build(self) => after := ExchangeKeeps(w, own, self, ConfigBox);
    case BuildHolder(self, at) => after := BuildHolderKeeps(w, own, self, at);
    case ReceiveRaw(kind) =>
      AllocateKeeps(w, own, kind, true);
      after := own[w.next := InHand];
    case Receive(at, reply) => after := ReceiveKeeps(w, own, at, reply);
  }

  /** Every operation on a well-owned world is defined, except reading a moved-from `RustBytes`,
      and leaves it well-owned. */
  lemma StepKeepsInv(w: World, op: Op)
    requires Inv(w) && WellScoped(w, op)
    ensures Step(w, op).Defined? <==> !ReadsMovedFrom(w, op)
    ensures Step(w, op).Defined? ==> Inv(Step(w, op).world)
  {
    hide Owned, Consistent, Step, WellScoped, ReadsMovedFrom;
    var own :| Owned(w, own);
    var after;
    if OfAnyHolder(op) {
      after := HolderStepKeeps(w, own, op);
    } else {
      after := BuilderStepKeeps(w, own, op);
    }
  }

  // ---------- Runs ----------

  function Run(w: World, ops: seq<Op>): (r: Result)
    requires WellScopedRun(w, ops)
    decreases |ops|
  {
    if ops == [] then Defined(w)
    else
      var next :- Step(w, ops[0]);
      Run(next, ops[1..])
  }

  /** Every operation of the program is well scoped when it is reached. */
  predicate WellScopedRun(w: World, ops: seq<Op>)
    decreases |ops|
  {
    ops != [] ==> WellScoped(w, ops[0])
                  && (Step(w, ops[0]).Defined? ==> WellScopedRun(Step(w, ops[0]).world, ops[1..]))
  }

  /** No operation of the program reads a moved-from `RustBytes`. */
  predicate NoMovedFromReads(w: World, ops: seq<Op>)
    requires WellScopedRun(w, ops)
    decreases |ops|
  {
    ops != [] ==> !ReadsMovedFrom(w, ops[0])
                  && (Step(w, ops[0]).Defined? ==> NoMovedFromReads(Step(w, ops[0]).world, ops[1..]))
  }

  /** Memory safety over every run: from a well-owned world, any program of holder operations,
      self-assignments included, is defined exactly when it never reads a moved-from `RustBytes`;
      nothing is freed twice or used after being freed. */
  lemma {:induction false} RunIsMemorySafe(w: World, ops: seq<Op>)
    requires Inv(w) && WellScopedRun(w, ops)
    ensures Run(w, ops).Defined? <==> NoMovedFromReads(w, ops)
    ensures Run(w, ops).Defined? ==> Inv(Run(w, ops).world)
    decreases |ops|
  {
    hide Inv, Step, WellScoped, ReadsMovedFrom;
    if ops != [] {
      StepKeepsInv(w, ops[0]);
      if Step(w, ops[0]).Defined? {
        RunIsMemorySafe(Step(w, ops[0]).world, ops[1..]);
      }
    }
  }

  /** At most one owner: in every reachable world no two holders share a pointer, and none shares one with
      code outside the holders. */
  lemma AtMostOneOwner(ops: seq<Op>, a: Addr, b: Addr)
    requires WellScopedRun(EMPTY, ops) && Run(EMPTY, ops).Defined?
    ensures var w := Run(EMPTY, ops).world;
      a in w.holders && w.holders[a].ptr.Some? ==>
        && w.holders[a].ptr.value !in w.raw
        && (b in w.holders && w.holders[b].ptr == w.holders[a].ptr ==> a == b)
  {
    assert Owned(EMPTY, map[]);
    RunIsMemorySafe(EMPTY, ops);
    var w := Run(EMPTY, ops).world;
    var own :| Owned(w, own);
    if a in w.holders && w.holders[a].ptr.Some? {
      assert own[w.holders[a].ptr.value] == HeldAt(a);
    }
  }

  /** What one operation does to the pointers outside the holders: `release`, `Build` and raw calls hand one out,
      constructing a holder around one and passing one to Rust take it back, and nothing else changes them. */
  function HandedOut(w: World, op: Op, out: set<Ptr>): (r: set<Ptr>)
    requires WellScoped(w, op)
  {
    match op
    case Release(self) => if w.holders[self].ptr.Some? then out + {w.holders[self].ptr.value} else out
    case Build(self) => if w.holders[self].ptr.Some? then out + {w.next} else out
    case ReceiveRaw(_) => out + {w.next}
    case Adopt(_, _, ptr) => if ptr.Some? then out - {ptr.value} else out
    case HandOff(passed) => out - {passed}
    case _ => out
  }

  /** The pointers a program has handed out and not taken back. */
  function Outstanding(w: World, ops: seq<Op>, out: set<Ptr>): (r: set<Ptr>)
    requires WellScopedRun(w, ops)
    decreases |ops|
  {
    if ops == [] || !Step(w, ops[0]).Defined? then out
    else Outstanding(Step(w, ops[0]).world, ops[1..], HandedOut(w, ops[0], out))
  }

  /** What a holder points to is live and not outside. */
  lemma HeldIsNotRaw(w: World, a: Addr)
    requires Inv(w) && a in w.holders && w.holders[a].ptr.Some?
    ensures w.holders[a].ptr.value !in w.raw && w.holders[a].ptr.value in w.ledger && w.holders[a].ptr.value < w.next
  {
    var own :| Owned(w, own);
    assert own[w.holders[a].ptr.value] == HeldAt(a);
  }

  lemma NextIsNotRaw(w: World)
    requires Inv(w)
    ensures w.next !in w.raw && w.next !in w.ledger
  {
    var own :| Owned(w, own);
  }

  lemma HolderStepRaw(w: World, op: Op)
    requires Inv(w) && WellScoped(w, op) && OfAnyHolder(op) && Step(w, op).Defined?
    ensures Step(w, op).world.raw == HandedOut(w, op, w.raw)
  {
    hide Inv;
    match op
    case MoveConstruct(at, source) => if w.holders[source].ptr.Some? { HeldIsNotRaw(w, source); }
    case MoveAssign(target, source) =>
      if w.holders[source].ptr.Some? { HeldIsNotRaw(w, source); }
      if w.holders[target].ptr.Some? { HeldIsNotRaw(w, target); }
    case Destroy(self) => if w.holders[self].ptr.Some? { HeldIsNotRaw(w, self); }
    case _ =>
  }

  lemma BuilderStepRaw(w: World, op: Op)
    requires Inv(w) && WellScoped(w, op) && !OfAnyHolder(op) && Step(w, op).Defined?
    ensures Step(w, op).world.raw == HandedOut(w, op, w.raw)
  {
    hide Inv;
    NextIsNotRaw(w);
    match op
    case AddOrSet(self, at) => if w.holders[self].ptr.Some? { HeldIsNotRaw(w, self); }
    case Build(self) => if w.holders[self].ptr.Some? { HeldIsNotRaw(w, self); }
    case BuildHolder(self, at) => if w.holders[self].ptr.Some? { HeldIsNotRaw(w, self); }
    case _ =>
  }

  lemma {:induction false} RawIsOutstanding(w: World, ops: seq<Op>)
    requires Inv(w) && WellScopedRun(w, ops) && Run(w, ops).Defined?
    ensures Run(w, ops).world.raw == Outstanding(w, ops, w.raw)
    decreases |ops|
  {
    hide Inv, Step, HandedOut, WellScoped;
    if ops != [] {
      StepKeepsInv(w, ops[0]);
      if OfAnyHolder(ops[0]) {
        HolderStepRaw(w, ops[0]);
      } else {
        BuilderStepRaw(w, ops[0]);
      }
      RawIsOutstanding(Step(w, ops[0]).world, ops[1..]);
    }
  }

  /** Nothing leaks: once every holder is gone, the live allocations are exactly those the program was handed by
      `release`, `Build` or a raw call and has not given back; all others have been returned to Rust
      together with their contents. */
  lemma AllAccountedFor(ops: seq<Op>)
    requires WellScopedRun(EMPTY, ops) && Run(EMPTY, ops).Defined?
    requires Run(EMPTY, ops).world.holders == map[]
    ensures var w := Run(EMPTY, ops).world;
      && (forall p :: p in w.ledger ==> (w.ledger[p].live <==> p in Outstanding(EMPTY, ops, {})))
      && (forall p :: p in w.ledger && !w.ledger[p].live ==> !w.ledger[p].contents.LiveContents?)
      && Outstanding(EMPTY, ops, {}) <= w.ledger.Keys
  {
    assert Owned(EMPTY, map[]);
    RunIsMemorySafe(EMPTY, ops);
    RawIsOutstanding(EMPTY, ops);
    var w := Run(EMPTY, ops).world;
    var own :| Owned(w, own);
  }

  predicate HandsOut(op: Op) {
    op.Release? || op.Build? || op.ReceiveRaw?
  }

  lemma {:induction false} NothingHandedOut(w: World, ops: seq<Op>)
    requires WellScopedRun(w, ops) && forall i: nat :: i < |ops| ==> !HandsOut(ops[i])
    ensures Outstanding(w, ops, {}) == {}
    decreases |ops|
  {
    hide Step;
    if ops != [] && Step(w, ops[0]).Defined? {
      assert !HandsOut(ops[0]);
      assert HandedOut(w, ops[0], {}) == {};
      NothingHandedOut(Step(w, ops[0]).world, ops[1..]);
    }
  }

  /** A program that keeps to the holders leaves nothing live. */
  lemma HoldersLeaveNothingLive(ops: seq<Op>)
    requires WellScopedRun(EMPTY, ops) && Run(EMPTY, ops).Defined? && Run(EMPTY, ops).world.holders == map[]
    requires forall i: nat :: i < |ops| ==> !HandsOut(ops[i])
    ensures forall p :: p in Run(EMPTY, ops).world.ledger ==> !Run(EMPTY, ops).world.ledger[p].live
  {
    AllAccountedFor(ops);
    NothingHandedOut(EMPTY, ops);
  }

  /** Dead allocations of `w` are the same in `v`, and pointers are not reused. */
  ghost predicate KeepsDead(w: World, v: World) {
    && (forall p :: p in w.ledger && !w.ledger[p].live ==> p in v.ledger && v.ledger[p] == w.ledger[p])
    && w.ledger.Keys <= v.ledger.Keys && (forall p :: p in v.ledger && p !in w.ledger ==> w.next <= p < v.next)
    && w.next <= v.next
  }

  lemma AssignKeepsDead(w: World, target: Addr, source: Addr)
    requires target in w.holders && source in w.holders
    ensures Assign(w, target, source).Defined? ==> KeepsDead(w, Assign(w, target, source).world)
  {
  }

  lemma ExchangeKeepsDead(w: World, self: Addr, kind: Kind)
    requires Consistent(w) && self in w.holders
    ensures Exchange(w, self, kind).Defined? ==> KeepsDead(w, Exchange(w, self, kind).world)
  {
  }

  lemma ReceiveKeepsDead(w: World, at: Addr, reply: Reply)
    requires Consistent(w) && at !in w.holders
    ensures Step(w, Receive(at, reply)).Defined? ==> KeepsDead(w, Step(w, Receive(at, reply)).world)
  {
  }

  lemma HolderStepKeepsDead(w: World, op: Op)
    requires WellScoped(w, op) && OfAnyHolder(op) && Step(w, op).Defined?
    ensures KeepsDead(w, Step(w, op).world)
  {
    hide Assign, Exchange;
    if op.MoveAssign? {
      AssignKeepsDead(w, op.target, op.source);
    }
  }

  /** What is given back stays given back: no operation revives or touches a dead allocation. */
  lemma DeadStaysDead(w: World, op: Op)
    requires Consistent(w) && WellScoped(w, op)
    requires Step(w, op).Defined?
    ensures KeepsDead(w, Step(w, op).world)
  {
    if OfAnyHolder(op) {
      HolderStepKeepsDead(w, op);
    } else {
      hide Assign, Exchange;
      match op
      case AddOrSet(self, at) => ExchangeKeepsDead(w, self, BuilderBox);
      case Build(self) => ExchangeKeepsDead(w, self, ConfigBox);
      case BuildHolder(self, at) => ExchangeKeepsDead(w, self, ConfigBox);
      case ReceiveRaw(kind) =>
      case Receive(at, reply) => ReceiveKeepsDead(w, at, reply);
      case NewBuilder(at) =>
    }
  }

  /** Over a whole run an allocation dies at most once and never comes back. */
  lemma {:induction false} RunKeepsDead(w: World, ops: seq<Op>)
    requires Inv(w) && WellScopedRun(w, ops) && Run(w, ops).Defined?
    ensures KeepsDead(w, Run(w, ops).world)
    decreases |ops|
  {
    hide Step, WellScoped, Owned;
    if ops != [] {
      StepKeepsInv(w, ops[0]);
      DeadStaysDead(w, ops[0]);
      RunKeepsDead(Step(w, ops[0]).world, ops[1..]);
    }
  }

  // ---------- UpdateRaw ----------

  /** What `UpdateRaw` does once its callback has returned the holder at `result`, or an error: the returned
      value is moved into a temporary, the parameter goes out of scope, and the temporary is moved
      into the builder. */
  function ReturnOps(self: Addr, parameter: Addr, result: Option<Addr>, temporary: Addr): (r: seq<Op>) {
    match result
    case None => [Destroy(parameter)]
    case Some(returned) =>
      [MoveConstruct(temporary, returned), Destroy(parameter), MoveAssign(self, temporary), Destroy(temporary)]
  }

  /** `UpdateRaw` around any callback: `callback` is whatever the callback does, and it is not called when
      there is no builder. */
  function UpdateRawOps(w: World, self: Addr, parameter: Addr, callback: seq<Op>, result: Option<Addr>, temporary: Addr)
    : (r: seq<Op>)
    requires self in w.holders
  {
    if PtrOf(w, self).None? then []
    else [MoveConstruct(parameter, self)] + callback + ReturnOps(self, parameter, result, temporary)
  }

  /** What the callback leaves: builder and parameter still exist, and what it returned is the holder of a builder. */
  predicate CallbackReturns(u: World, self: Addr, parameter: Addr, result: Option<Addr>, temporary: Addr) {
    && self in u.holders && u.holders[self].kind.BuilderBox? && parameter in u.holders && self != parameter
    && (result.Some? ==>
          result.value in u.holders && u.holders[result.value].kind.BuilderBox? && temporary !in u.holders)
  }

  /** One program after another. */
  lemma {:induction false} RunJoins(w: World, a: seq<Op>, b: seq<Op>)
    requires WellScopedRun(w, a) && Run(w, a).Defined? && WellScopedRun(Run(w, a).world, b)
    ensures WellScopedRun(w, a + b) && Run(w, a + b) == Run(Run(w, a).world, b)
    decreases |a|
  {
    hide Step, WellScoped;
    if a == [] {
      assert a + b == b;
    } else {
      assert (a + b)[0] == a[0] && (a + b)[1..] == a[1..] + b;
      RunJoins(Step(w, a[0]).world, a[1..], b);
    }
  }

  /** An operation before a program. */
  lemma HeadRuns(w: World, op: Op, rest: seq<Op>)
    requires WellScoped(w, op) && Step(w, op).Defined? && WellScopedRun(Step(w, op).world, rest)
    ensures WellScopedRun(w, [op] + rest) && Run(w, [op] + rest) == Run(Step(w, op).world, rest)
  {
    hide Step, WellScoped;
    DropFirst(op, rest);
  }

  /** The first operation of a program and the rest of it. */
  lemma RunHead(w: World, op: Op, rest: seq<Op>)
    requires WellScopedRun(w, [op] + rest)
    ensures WellScoped(w, op)
    ensures Step(w, op).Defined? ==> WellScopedRun(Step(w, op).world, rest)
                                     && Run(w, [op] + rest) == Run(Step(w, op).world, rest)
  {
    hide Step, WellScoped;
    DropFirst(op, rest);
  }

  lemma RunNothing(w: World)
    ensures WellScopedRun(w, []) && Run(w, []) == Defined(w)
  {
  }

  /** The operations after a returned holder, one by one. */
  lemma ReturnOpsOf(self: Addr, parameter: Addr, returned: Addr, temporary: Addr)
    ensures ReturnOps(self, parameter, Some(returned), temporary)
         == [MoveConstruct(temporary, returned)]
            + ([Destroy(parameter)] + ([MoveAssign(self, temporary)] + ([Destroy(temporary)] + [])))
    ensures ReturnOps(self, parameter, None, temporary) == [Destroy(parameter)] + []
  {
  }

  /** Moving a holder into a new one, and what destroying one leaves of the others. */
  lemma MoveConstructMoves(w: World, at: Addr, source: Addr)
    requires WellScoped(w, MoveConstruct(at, source))
    ensures var v := Step(w, MoveConstruct(at, source)).world;
      && Step(w, MoveConstruct(at, source)).Defined? && v.holders.Keys == w.holders.Keys + {at} && v.ledger == w.ledger
      && PtrOf(v, at) == PtrOf(w, source) && PtrOf(v, source) == None
      && (forall b :: b in w.holders && b != source ==> v.holders[b] == w.holders[b])
      && v.holders[at].kind == w.holders[source].kind && v.holders[source].kind == w.holders[source].kind
  {
  }

  /** The allocation has been given back to Rust. */
  predicate Dead(w: World, p: Ptr) {
    p in w.ledger && !w.ledger[p].live
  }

  lemma DestroyFrees(w: World, self: Addr)
    requires Inv(w) && self in w.holders
    ensures var v := Step(w, Destroy(self)).world;
      && Step(w, Destroy(self)).Defined? && Inv(v) && v.holders == w.holders - {self}
      && (PtrOf(w, self).Some? ==> Dead(v, PtrOf(w, self).value))
  {
    StepKeepsInv(w, Destroy(self));
  }

  lemma MoveAssignMoves(w: World, target: Addr, source: Addr)
    requires Inv(w) && target != source && WellScoped(w, MoveAssign(target, source))
    ensures var v := Step(w, MoveAssign(target, source)).world;
      && Step(w, MoveAssign(target, source)).Defined? && Inv(v) && v.holders.Keys == w.holders.Keys
      && PtrOf(v, target) == PtrOf(w, source) && PtrOf(v, source) == None
      && (PtrOf(w, target).Some? ==> Dead(v, PtrOf(w, target).value))
  {
    StepKeepsInv(w, MoveAssign(target, source));
  }

  lemma ScopedDestroy(w: World, self: Addr)
    requires WellScoped(w, Destroy(self))
    ensures self in w.holders
  {
  }

  predicate IsLive(w: World, p: Ptr, kind: Kind) {
    p in w.ledger && w.ledger[p].live && w.ledger[p].kind == kind
  }

  /** A call that consumes a builder leaves it dead and its object empty, and a new allocation in hand. */
  lemma ExchangeConsumes(w: World, self: Addr, kind: Kind)
    requires Inv(w) && self in w.holders && w.holders[self].kind.BuilderBox?
    ensures Exchange(w, self, kind).Defined?
    ensures var v := Exchange(w, self, kind).world;
      && (PtrOf(w, self).None? ==> v == w)
      && (PtrOf(w, self).Some? ==>
            && v.holders == w.holders[self := Holder(BuilderBox, None)] && Dead(v, PtrOf(w, self).value)
            && w.next in v.raw && IsLive(v, w.next, kind))
  {
    if PtrOf(w, self).Some? {
      HeldIsNotRaw(w, self);
      NextIsNotRaw(w);
    }
  }

  /** `Add*` and `Set*` hand the builder to Rust and put the one it returns into the returned object; without a
      builder the returned object is empty too. */
  lemma AddOrSetReplaces(w: World, self: Addr, at: Addr)
    requires Inv(w) && WellScoped(w, AddOrSet(self, at))
    ensures Step(w, AddOrSet(self, at)).Defined?
    ensures var v := Step(w, AddOrSet(self, at)).world;
      && v.holders.Keys == w.holders.Keys + {at} && PtrOf(v, self) == None
      && (PtrOf(w, self).None? ==> PtrOf(v, at) == None && v.ledger == w.ledger)
      && (PtrOf(w, self).Some? ==>
            && Dead(v, PtrOf(w, self).value) && PtrOf(v, at) == Some(w.next) && IsLive(v, w.next, BuilderBox))
  {
    hide Inv, Exchange;
    ExchangeConsumes(w, self, BuilderBox);
  }

  /** `Build` hands the builder to Rust and returns the configuration as a raw pointer; once the builder is used up
      it returns nothing. */
  lemma BuildConsumes(w: World, self: Addr)
    requires Inv(w) && WellScoped(w, Build(self))
    ensures Step(w, Build(self)).Defined?
    ensures var v := Step(w, Build(self)).world;
      && (PtrOf(w, self).None? ==> v == w)
      && (PtrOf(w, self).Some? ==> PtrOf(v, self) == None && Dead(v, PtrOf(w, self).value)
                                   && w.next in v.raw && IsLive(v, w.next, ConfigBox))
  {
    hide Inv, Exchange;
    ExchangeConsumes(w, self, ConfigBox);
  }

  /** `BuildHolder` puts the configuration into a holder instead. */
  lemma BuildHolderConsumes(w: World, self: Addr, at: Addr)
    requires Inv(w) && WellScoped(w, BuildHolder(self, at))
    ensures Step(w, BuildHolder(self, at)).Defined?
    ensures var v := Step(w, BuildHolder(self, at)).world;
      && v.holders.Keys == w.holders.Keys + {at} && PtrOf(v, self) == None
      && (PtrOf(w, self).None? ==> PtrOf(v, at) == None && v.ledger == w.ledger)
      && (PtrOf(w, self).Some? ==> Dead(v, PtrOf(w, self).value) && PtrOf(v, at) == Some(w.next)
                                   && IsLive(v, w.next, ConfigBox))
  {
    hide Inv, Exchange;
    ExchangeConsumes(w, self, ConfigBox);
  }

  /** A reply with bytes ends up in one holder, an error is read and freed, an empty reply does nothing; a new builder
      is held from the start. */
  lemma RepliesAreHeld(w: World, at: Addr, reply: Reply)
    requires Inv(w) && at !in w.holders
    ensures Step(w, Receive(at, reply)).Defined? && Step(w, NewBuilder(at)).Defined?
    ensures var v := Step(w, Receive(at, reply)).world;
      && (reply.NullReply? ==> v == w)
      && (reply.ErrReply? ==> v.holders == w.holders && Dead(v, w.next))
      && (reply.OkReply? ==> v.holders == w.holders[at := Holder(BytesBox, Some(w.next))] && IsLive(v, w.next, BytesBox))
    ensures var v := Step(w, NewBuilder(at)).world;
      v.holders == w.holders[at := Holder(BuilderBox, Some(w.next))] && IsLive(v, w.next, BuilderBox)
  {
    StepKeepsInv(w, Receive(at, reply));
  }

  /** The four steps after a callback that returned a holder. */
  lemma ReturnMoves(u: World, self: Addr, parameter: Addr, returned: Addr, temporary: Addr)
    requires Inv(u) && CallbackReturns(u, self, parameter, Some(returned), temporary)
    ensures WellScopedRun(u, ReturnOps(self, parameter, Some(returned), temporary))
    ensures var v := Run(u, ReturnOps(self, parameter, Some(returned), temporary));
      && v.Defined? && Inv(v.world) && self in v.world.holders
      && PtrOf(v.world, self) == PtrOf(u, returned)
      && parameter !in v.world.holders && temporary !in v.world.holders
  {
    hide Inv, Step, Run, WellScopedRun, ReturnOps;
    ReturnOpsOf(self, parameter, returned, temporary);
    MoveConstructMoves(u, temporary, returned);
    StepKeepsInv(u, MoveConstruct(temporary, returned));
    var u1 := Step(u, MoveConstruct(temporary, returned)).world;
    DestroyFrees(u1, parameter);
    var u2 := Step(u1, Destroy(parameter)).world;
    MoveAssignMoves(u2, self, temporary);
    var u3 := Step(u2, MoveAssign(self, temporary)).world;
    DestroyFrees(u3, temporary);
    var last := [Destroy(temporary)] + [];
    var assign := [MoveAssign(self, temporary)] + last;
    RunNothing(Step(u3, Destroy(temporary)).world);
    HeadRuns(u3, Destroy(temporary), []);
    HeadRuns(u2, MoveAssign(self, temporary), last);
    HeadRuns(u1, Destroy(parameter), assign);
    HeadRuns(u, MoveConstruct(temporary, returned), [Destroy(parameter)] + assign);
  }

  /** The one step after a callback that failed. */
  lemma FailureFrees(u: World, self: Addr, parameter: Addr, temporary: Addr)
    requires Inv(u) && CallbackReturns(u, self, parameter, None, temporary)
    ensures WellScopedRun(u, ReturnOps(self, parameter, None, temporary))
    ensures var v := Run(u, ReturnOps(self, parameter, None, temporary));
      && v.Defined? && Inv(v.world) && self in v.world.holders && parameter !in v.world.holders
      && PtrOf(v.world, self) == PtrOf(u, self)
      && (PtrOf(u, parameter).Some? ==> Dead(v.world, PtrOf(u, parameter).value))
  {
    hide Inv, Step, Run, WellScopedRun, ReturnOps;
    ReturnOpsOf(self, parameter, parameter, temporary);
    DestroyFrees(u, parameter);
    RunNothing(Step(u, Destroy(parameter)).world);
    HeadRuns(u, Destroy(parameter), []);
  }

  /** `UpdateRaw` with any callback, which may move, release, adopt, build, call Rust or nest further
      updates: without a builder nothing happens; otherwise, unless the callback reads a moved-from
      `RustBytes`, the builder ends up with exactly what the returned holder held, a failing callback
      leaves nothing behind in the parameter, and the world stays well-owned. */
  lemma UpdateRawMovesThrough(w: World, self: Addr, parameter: Addr, callback: seq<Op>, result: Option<Addr>,
                              temporary: Addr)
    requires Inv(w) && self in w.holders && w.holders[self].kind.BuilderBox?
    ensures PtrOf(w, self).None? ==> Run(w, UpdateRawOps(w, self, parameter, callback, result, temporary)) == Defined(w)
    ensures var called, ops := [MoveConstruct(parameter, self)] + callback,
                               UpdateRawOps(w, self, parameter, callback, result, temporary);
      PtrOf(w, self).Some? && WellScopedRun(w, called) && Run(w, called).Defined?
      && CallbackReturns(Run(w, called).world, self, parameter, result, temporary) ==>
        && WellScopedRun(w, ops)
        && var u, v := Run(w, called).world, Run(w, ops);
        && v.Defined? && Inv(v.world) && parameter !in v.world.holders && self in v.world.holders
        && (result.Some? ==> PtrOf(v.world, self) == PtrOf(u, result.value))
        && (result.None? ==> PtrOf(v.world, self) == PtrOf(u, self)
                             && (PtrOf(u, parameter).Some? ==> Dead(v.world, PtrOf(u, parameter).value)))
  {
    hide Inv, Step;
    var called := [MoveConstruct(parameter, self)] + callback;
    if PtrOf(w, self).Some? && WellScopedRun(w, called) && Run(w, called).Defined?
       && CallbackReturns(Run(w, called).world, self, parameter, result, temporary) {
      RunIsMemorySafe(w, called);
      var u := Run(w, called).world;
      if result.Some? {
        ReturnMoves(u, self, parameter, result.value, temporary);
      } else {
        FailureFrees(u, self, parameter, temporary);
      }
      RunJoins(w, called, ReturnOps(self, parameter, result, temporary));
    }
  }

  // ---------- The operations as written ----------

  /** The holders of a running program and the Rust heap behind them. A method can only free or
      read what is live, so its body is checked to do no more. */
  class Process {
    var holders: map<Addr, Holder>
    var ledger: map<Ptr, Allocation>
    var raw: set<Ptr>
    var next: Ptr

    constructor ()
      ensures Valid() && Snapshot() == EMPTY
    {
      holders, ledger, raw, next := map[], map[], {}, 0;
      new;
      assert Owned(Snapshot(), map[]);
    }

    ghost function Snapshot(): (w: World)
      reads this
    {
      World(holders, ledger, raw, next)
    }

    ghost predicate Valid()
      reads this
    {
      Inv(Snapshot())
    }

    /** `free_session_config_builder`, `session_config_free`, `free_rust_bytes`, `free_error`, or a
        call that consumes its argument. */
    method PassToRust(p: Ptr, kind: Kind)
      requires p in ledger && ledger[p].live && ledger[p].kind == kind && !ledger[p].contents.FreedContents?
      modifies this
      ensures GiveBack(old(Snapshot()), Some(p), kind) == Defined(Snapshot())
    {
      if ledger[p].contents.LiveContents? {
        ledger := ledger[p := ledger[p].(contents := FreedContents)];
      }
      ledger := ledger[p := ledger[p].(live := false)];
      raw := raw - {p};
    }

    method ReleaseHolder(self: Addr) returns (p: Option<Ptr>)
      requires self in holders
      modifies this
      ensures p == PtrOf(old(Snapshot()), self) && Snapshot() == Take(old(Snapshot()), self)
    {
      p := holders[self].ptr;
      holders := holders[self := holders[self].(ptr := None)];
      if p.Some? {
        raw := raw + {p.value};
      }
    }

    /** A null field is overwritten with a pointer that is now the holder's. */
    method StoreInto(a: Addr, p: Option<Ptr>)
      requires a in holders && holders[a].ptr.None?
      modifies this
      ensures Snapshot() == Put(old(Snapshot()), a, p)
    {
      if p.Some? {
        holders := holders[a := holders[a].(ptr := p)];
        raw := raw - {p.value};
      }
    }

    /** The pointer Rust hands out for a new box. */
    method AllocateInRust(kind: Kind, empty: bool) returns (p: Ptr)
      modifies this
      ensures p == old(next) && Snapshot() == Allocate(old(Snapshot()), kind, empty)
    {
      p := next;
      next := next + 1;
      ledger := ledger[p := Allocation(kind, true, if empty then NoContents else LiveContents)];
      raw := raw + {p};
    }

    method ConstructHolder(at: Addr, kind: Kind)
      requires at !in holders
      modifies this
      ensures Snapshot() == Construct(old(Snapshot()), at, kind)
    {
      holders := holders[at := Holder(kind, None)];
    }

    /** Frees what a holder points to, if anything. */
    method FreeHeld(self: Addr)
      requires Valid() && self in holders
      modifies this
      ensures var w := old(Snapshot());
              GiveBack(Take(w, self), PtrOf(w, self), w.holders[self].kind) == Defined(Snapshot())
      ensures Valid()
    {
      ghost var w := Snapshot();
      ghost var own :| Owned(w, own);
      ghost var after := FreeHeldKeeps(w, own, self);
      var p := ReleaseHolder(self);
      if p.Some? {
        PassToRust(p.value, holders[self].kind);
      }
      assert Owned(Snapshot(), after);
    }

    method MoveConstructHolder(at: Addr, source: Addr)
      requires Valid() && WellScoped(Snapshot(), MoveConstruct(at, source))
      modifies this
      ensures Step(old(Snapshot()), MoveConstruct(at, source)) == Defined(Snapshot()) && Valid()
    {
      StepKeepsInv(Snapshot(), MoveConstruct(at, source));
      ConstructHolder(at, holders[source].kind);
      var p := ReleaseHolder(source);
      StoreInto(at, p);
    }

    /** `operator=(T&&)`: self-assignment does nothing, otherwise the old pointer is freed first. */
    method MoveAssignHolder(target: Addr, source: Addr)
      requires Valid() && WellScoped(Snapshot(), MoveAssign(target, source))
      modifies this
      ensures Step(old(Snapshot()), MoveAssign(target, source)) == Defined(Snapshot()) && Valid()
    {
      hide Inv, GiveBack;
      StepKeepsInv(Snapshot(), MoveAssign(target, source));
      if target == source {
        return;
      }
      FreeHeld(target);
      var p := ReleaseHolder(source);
      StoreInto(target, p);
    }

    method DestroyHolder(self: Addr)
      requires Valid() && self in holders
      modifies this
      ensures Step(old(Snapshot()), Destroy(self)) == Defined(Snapshot()) && Valid()
    {
      StepKeepsInv(Snapshot(), Destroy(self));
      FreeHeld(self);
      holders := holders - {self};
    }

    /** The part of `Add*`, `Set*` and `Build` that calls Rust with the released builder. */
    method ExchangeBuilder(self: Addr, kind: Kind) returns (p: Option<Ptr>)
      requires Valid() && self in holders && holders[self].kind.BuilderBox?
      modifies this
      ensures Exchange(old(Snapshot()), self, kind) == Defined(Snapshot()) && p == Exchanged(old(Snapshot()), self)
      ensures Valid() && self in holders && holders[self].ptr.None?
    {
      ghost var own :| Owned(Snapshot(), own);
      ghost var after := ExchangeKeeps(Snapshot(), own, self, kind);
      p := None;
      if holders[self].ptr.Some? {
        FreeHeld(self);
        var q := AllocateInRust(kind, true);
        p := Some(q);
      }
      assert Owned(Snapshot(), after);
    }

    /** `AddSelfAttester` and its siblings: the object is moved into the returned one. */
    method AddOrSetOn(self: Addr, at: Addr)
      requires Valid() && WellScoped(Snapshot(), AddOrSet(self, at))
      modifies this
      ensures Step(old(Snapshot()), AddOrSet(self, at)) == Defined(Snapshot()) && Valid()
    {
      StepKeepsInv(Snapshot(), AddOrSet(self, at));
      var q := ExchangeBuilder(self, BuilderBox);
      StoreInto(self, q);
      ConstructHolder(at, BuilderBox);
      var p := ReleaseHolder(self);
      StoreInto(at, p);
    }

    /** `Build`: null once the builder has been used up. */
    method BuildConfig(self: Addr) returns (p: Option<Ptr>)
      requires Valid() && WellScoped(Snapshot(), Build(self))
      modifies this
      ensures Step(old(Snapshot()), Build(self)) == Defined(Snapshot()) && Valid()
      ensures p == Exchanged(old(Snapshot()), self)
    {
      p := ExchangeBuilder(self, ConfigBox);
    }

    method BuildConfigHolder(self: Addr, at: Addr)
      requires Valid() && WellScoped(Snapshot(), BuildHolder(self, at))
      modifies this
      ensures Step(old(Snapshot()), BuildHolder(self, at)) == Defined(Snapshot()) && Valid()
    {
      StepKeepsInv(Snapshot(), BuildHolder(self, at));
      var p := BuildConfig(self);
      ConstructHolder(at, ConfigBox);
      StoreInto(at, p);
    }

    /** `UpdateRaw` up to the call of the callback, which gets the builder by value; false without a builder. */
    method BeginUpdate(self: Addr, parameter: Addr) returns (called: bool)
      requires Valid() && self in holders && parameter !in holders
      modifies this
      ensures called == PtrOf(old(Snapshot()), self).Some? && Valid()
      ensures if called then Step(old(Snapshot()), MoveConstruct(parameter, self)) == Defined(Snapshot())
              else Snapshot() == old(Snapshot())
    {
      if holders[self].ptr.None? {
        return false;
      }
      MoveConstructHolder(parameter, self);
      called := true;
    }

    /** `UpdateRaw` from the return of the callback on. */
    method EndUpdate(self: Addr, parameter: Addr, result: Option<Addr>, temporary: Addr)
      requires Valid() && CallbackReturns(Snapshot(), self, parameter, result, temporary)
      modifies this
      ensures WellScopedRun(old(Snapshot()), ReturnOps(self, parameter, result, temporary))
      ensures Run(old(Snapshot()), ReturnOps(self, parameter, result, temporary)) == Defined(Snapshot()) && Valid()
    {
      hide Inv, Step, WellScoped, Run, WellScopedRun, ReturnOps;
      if result.Some? {
        ReturnMoves(Snapshot(), self, parameter, result.value, temporary);
      } else {
        FailureFrees(Snapshot(), self, parameter, temporary);
      }
      ReturnOpsOf(self, parameter, if result.Some? then result.value else parameter, temporary);
      ghost var last := [Destroy(temporary)] + [];
      ghost var assign := [MoveAssign(self, temporary)] + last;
      match result {
        case None =>
          RunHead(Snapshot(), Destroy(parameter), []);
          DestroyHolder(parameter);
        case Some(returned) =>
          RunHead(Snapshot(), MoveConstruct(temporary, returned), [Destroy(parameter)] + assign);
          MoveConstructHolder(temporary, returned);
          RunHead(Snapshot(), Destroy(parameter), assign);
          ScopedDestroy(Snapshot(), parameter);
          DestroyHolder(parameter);
          RunHead(Snapshot(), MoveAssign(self, temporary), last);
          MoveAssignHolder(self, temporary);
          RunHead(Snapshot(), Destroy(temporary), []);
          ScopedDestroy(Snapshot(), temporary);
          DestroyHolder(temporary);
      }
      RunNothing(Snapshot());
    }

    /** `ErrorIntoRustBytes` on a reply from Rust: an error is read and freed, bytes get a holder. */
    method ReceiveReply(at: Addr, reply: Reply) returns (ok: bool)
      requires Valid() && WellScoped(Snapshot(), Receive(at, reply))
      modifies this
      ensures Step(old(Snapshot()), Receive(at, reply)) == Defined(Snapshot()) && Valid()
      ensures ok == !reply.ErrReply?
    {
      StepKeepsInv(Snapshot(), Receive(at, reply));
      match reply {
        case NullReply => ok := true;
        case OkReply(empty) =>
          var p := AllocateInRust(BytesBox, empty);
          ConstructHolder(at, BytesBox);
          StoreInto(at, Some(p));
          ok := true;
        case ErrReply(empty) =>
          var p := AllocateInRust(ErrorBox, empty);
          PassToRust(p, ErrorBox);
          ok := false;
      }
    }
  }
}
