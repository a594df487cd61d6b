/**
 runtime/inject: the dependency-injection graph on the ordered map.

 Go types are a finite schema: struct types with tagged fields, the int and float kinds, interfaces with the
 struct types that implement them, and other types. `Start` may fail at any time. Objects, struct instances and
 the ordered map are updated in place; ghost fields remember in which order objects were started and which
 objects each was injected with.
 */
module Inject {
  import opened Wrappers
  import opened OrderedMap

  // ----- types and values

  datatype IntKind = Int | Int8 | Int16 | Int32 | Int64

  datatype FloatKind = Float32 | Float64

  datatype Type =
    | Pointer(s: nat)
    | Struct(s: nat)
    | Integer(ik: IntKind)
    | Float(fk: FloatKind)
    | Interface(i: nat)
    | Other(n: nat)

  /** `Nil` is a nil pointer or an empty interface; `OtherVal(0)` is the zero of a type without inner structure. */
  datatype Value =
    | Nil
    | Ref(p: Instance)
    | IntVal(x: int)
    | FloatVal(r: real)
    | StructVal(n: nat)
    | OtherVal(n: nat)

  class Instance {
    const stype: nat
    var fields: seq<Value>

    constructor (stype: nat, fields: seq<Value>)
      ensures this.stype == stype && this.fields == fields
    {
      this.stype, this.fields := stype, fields;
    }
  }

  datatype InjectTag = Malformed | Untagged | Tag(name: string)

  datatype Field = Field(ftype: Type, tag: InjectTag, singleton: bool, canNil: bool, exported: bool, anonymous: bool)

  datatype Schema = Schema(structs: seq<seq<Field>>, implements: set<(nat, nat)>, impls: map<string, seq<nat>>,
                           typeName: Type -> string, startable: Type -> bool, closable: Type -> bool,
                           round32: real -> real)

  function Zero(t: Type): Value {
    match t
    case Pointer(_) => Nil
    case Struct(_) => StructVal(0)
    case Integer(_) => IntVal(0)
    case Float(_) => FloatVal(0.0)
    case Interface(_) => Nil
    case Other(_) => OtherVal(0)
  }

  predicate IsZero(v: Value) {
    v in {Nil, IntVal(0), FloatVal(0.0), OtherVal(0)}
  }

  /** No field that had a value has lost it or taken another. */
  ghost predicate Lasting(before: seq<Value>, after: seq<Value>) {
    |after| == |before| && forall i :: 0 <= i < |before| && !IsZero(before[i]) ==> after[i] == before[i]
  }

  lemma LastingSelf(fields: seq<Value>)
    ensures Lasting(fields, fields)
  {
  }

  lemma LastingOn(before: seq<Value>, mid: seq<Value>, after: seq<Value>)
    requires Lasting(before, mid) && Lasting(mid, after)
    ensures Lasting(before, after)
  {
    forall i | 0 <= i < |before| && !IsZero(before[i])
      ensures after[i] == before[i]
    {
      assert mid[i] == before[i];
    }
  }

  predicate AssignableTo(schema: Schema, t: Type, u: Type) {
    t == u || (t.Pointer? && u.Interface? && (t.s, u.i) in schema.implements)
  }

  /** How many values an int kind has; Int is 64 bits wide. */
  function Range(k: IntKind): int {
    match k
    case Int8 => 0x100
    case Int16 => 0x1_0000
    case Int32 => 0x1_0000_0000
    case _ => 0x1_0000_0000_0000_0000
  }

  /** `SetInt` keeps the low bits and reads them as two's complement. */
  function Wrap(k: IntKind, x: int): int {
    (x + Range(k) / 2) % Range(k) - Range(k) / 2
  }

  predicate InRange(k: IntKind, x: int) {
    -Range(k) / 2 <= x < Range(k) / 2
  }

  /** The ranges of the signed types of 8, 16, 32 and 64 bits. */
  lemma Ranges(x: int)
    ensures InRange(Int8, x) <==> -128 <= x <= 127
    ensures InRange(Int16, x) <==> -32768 <= x <= 32767
    ensures InRange(Int32, x) <==> -0x8000_0000 <= x <= 0x7fff_ffff
    ensures InRange(Int64, x) <==> -0x8000_0000_0000_0000 <= x <= 0x7fff_ffff_ffff_ffff
    ensures InRange(Int, x) <==> InRange(Int64, x)
  {
  }

  /** It is the one value of the kind that agrees with `x` on those bits, so a value that fits is kept. */
  lemma WrapIsExact(k: IntKind, x: int, y: int)
    requires InRange(k, y)
    ensures y == Wrap(k, x) <==> (x - y) % Range(k) == 0
  {
    var m := Range(k);
    assert x - Wrap(k, x) == (x + m / 2) / m * m;
  }

  predicate Injectable(schema: Schema, t: Type, u: Type) {
    AssignableTo(schema, t, u) || (t.Integer? && u.Integer?) || (t.Float? && u.Float?)
  }

  /**
   A field of type `u` may hold `w` once the value `v` of an object of type `t` was injected: that value itself if it can
   be assigned, else between two int kinds the value in range with the same low bits, and between two float kinds the
   same number, rounded for the narrower one. Nothing else can be injected.
   */
  ghost predicate Injected(schema: Schema, t: Type, v: Value, u: Type, w: Value) {
    if AssignableTo(schema, t, u) then w == v
    else
      match (t, v, u)
      case (Integer(_), IntVal(x), Integer(k)) => w.IntVal? && InRange(k, w.x) && (x - w.x) % Range(k) == 0
      case (Float(_), FloatVal(_), Float(Float64)) => w == v
      case (Float(_), FloatVal(r), Float(Float32)) => w == FloatVal(schema.round32(r))
      case _ => false
  }

  /** What a field of type `u` holds after the value of an object of type `t` is injected, if it can be. */
  function Carried(schema: Schema, t: Type, v: Value, u: Type): Option<Value> {
    if AssignableTo(schema, t, u) then Some(v)
    else match (t, v, u)
      case (Integer(_), IntVal(x), Integer(k)) => Some(IntVal(Wrap(k, x)))
      case (Float(_), FloatVal(r), Float(k)) => Some(FloatVal(if k.Float32? then schema.round32(r) else r))
      case _ => None
  }

  /** It is the one value the field may then hold, if there is one. */
  lemma CarriedIsInjected(schema: Schema, t: Type, v: Value, u: Type)
    requires Typed(schema, t, v)
    ensures forall w :: Injected(schema, t, v, u, w) <==> Carried(schema, t, v, u) == Some(w)
    ensures AssignableTo(schema, t, u) ==> Carried(schema, t, v, u) == Some(v)
    ensures Carried(schema, t, v, u).Some? <==> Injectable(schema, t, u)
  {
    if t.Integer? && u.Integer? {
      forall w: Value | w.IntVal?
        ensures InRange(u.ik, w.x) && (v.x - w.x) % Range(u.ik) == 0 <==> w.x == Wrap(u.ik, v.x)
      {
        WrapInRange(u.ik, v.x);
        if InRange(u.ik, w.x) {
          WrapIsExact(u.ik, v.x, w.x);
        }
      }
    }
  }

  /** A struct pointer can be assigned to exactly the fields that can hold it. */
  lemma AssignableIffFits(schema: Schema, p: Instance, u: Type)
    requires p.stype < |schema.structs|
    ensures AssignableTo(schema, Pointer(p.stype), u) <==> Fitting(schema, u, Ref(p))
  {
  }

  /** A value `reflect.TypeOf` can have come from. */
  predicate Typed(schema: Schema, t: Type, v: Value) {
    match t
    case Pointer(s) => s < |schema.structs| && (v.Nil? || (v.Ref? && v.p.stype == s))
    case Integer(k) => v.IntVal? && InRange(k, v.x)
    case Float(_) => v.FloatVal?
    case Struct(_) => v.StructVal?
    case Interface(_) => false
    case Other(_) => v.OtherVal? || v.Nil?
  }

  /** What a field declared with type `u` can hold. */
  predicate Fitting(schema: Schema, u: Type, v: Value) {
    match u
    case Pointer(s) => v.Nil? || (v.Ref? && v.p.stype == s)
    case Interface(i) => v.Nil? || (v.Ref? && (v.p.stype, i) in schema.implements)
    case _ => Typed(schema, u, v)
  }

  /** A struct as the type system guarantees it: every field holds a value of its type. */
  predicate WellTyped(schema: Schema, fields: seq<Field>, values: seq<Value>) {
    |values| == |fields| && forall i :: 0 <= i < |fields| ==> Fitting(schema, fields[i].ftype, values[i])
  }

  function Target(v: Value): set<Instance> {
    if v.Ref? then {v.p} else {}
  }

  /** A value as the type system guarantees it, together with the struct it points to. */
  predicate Proper(schema: Schema, t: Type, v: Value)
    reads Target(v)
  {
    Typed(schema, t, v) && (v.Ref? ==> WellTyped(schema, schema.structs[t.s], v.p.fields))
  }

  lemma WrapInRange(k: IntKind, x: int)
    ensures InRange(k, Wrap(k, x))
  {
    var m := Range(k);
    assert 0 <= (x + m / 2) % m < m;
  }

  /** Injection is type-safe. */
  lemma CarriedFits(schema: Schema, t: Type, v: Value, u: Type)
    requires Typed(schema, t, v) && Carried(schema, t, v, u).Some?
    ensures Fitting(schema, u, Carried(schema, t, v, u).value)
  {
    if t.Integer? && u.Integer? {
      WrapInRange(u.ik, v.x);
    }
  }

  function NewFields(schema: Schema, s: nat): (fields: seq<Value>)
    requires s < |schema.structs|
    ensures WellTyped(schema, schema.structs[s], fields)
  {
    seq(|schema.structs[s]|, i requires 0 <= i < |schema.structs[s]| => Zero(schema.structs[s][i].ftype))
  }

  /** What is fixed about an object: `id` numbers those that started, the name and type are its own. */
  datatype Entry = Entry(id: nat, name: string, t: Type)

  type View = Pairs<string, Entry>

  // ----- what a graph remembers

  /** How a field came by its value. */
  datatype Source = NotTagged | Kept | Absent | From(dep: Entry)

  /**
   How an object came to be: its value, the value it was given, how many objects there were when its registration
   began, and of a struct the fields as they were found, as they were when it started, and where each came from.
   */
  datatype Birth = Birth(value: Value, given: Value, singleton: bool, noFill: bool, began: nat,
                         before: seq<Value>, after: seq<Value>, srcs: seq<Source>)

  /** The objects in the order they started, how each came to be, and whether any entry was ever replaced. */
  datatype History = History(order: seq<Entry>, births: map<Entry, Birth>, clashed: bool)

  ghost function DepsOf(srcs: seq<Source>): set<Entry> {
    set i | 0 <= i < |srcs| && srcs[i].From? :: srcs[i].dep
  }

  /** What an object was injected with. */
  ghost function Deps(births: map<Entry, Birth>, e: Entry): set<Entry> {
    if e in births then DepsOf(births[e].srcs) else {}
  }

  /** No object is started before the objects it was injected with. */
  ghost predicate Topological(order: seq<Entry>, births: map<Entry, Birth>) {
    forall i :: 0 <= i < |order| ==> forall d <- Deps(births, order[i]) :: d in order[..i]
  }

  /** The entries are the objects in the order they started, each under its name and perhaps its type name. */
  ghost predicate Spells(schema: Schema, view: View, order: seq<Entry>) {
    if order == [] then view == []
    else
      var o := order[|order| - 1];
      var one, two := |view| - 1, |view| - 2;
      || (one >= 0 && view[one] == (o.name, o) && Spells(schema, view[..one], order[..|order| - 1]))
      || (two >= 0 && view[two] == (o.name, o) && view[one] == (schema.typeName(o.t), o)
          && Spells(schema, view[..two], order[..|order| - 1]))
  }

  ghost predicate Listed(view: View, order: seq<Entry>) {
    forall j :: 0 <= j < |view| ==> view[j].1 in order
  }

  /** An object's number is its place in that order. */
  ghost predicate InOrder(order: seq<Entry>) {
    forall i :: 0 <= i < |order| ==> order[i].id == i
  }

  lemma NumberedIsDistinct(order: seq<Entry>)
    requires InOrder(order)
    ensures Distinct(order)
  {
  }

  /** The entries there were after the objects of `order` had been set, one after the other. */
  ghost function ViewOf(schema: Schema, births: map<Entry, Birth>, order: seq<Entry>): View {
    if order == [] then []
    else
      var o, view := order[|order| - 1], ViewOf(schema, births, order[..|order| - 1]);
      if o in births then InsertedView(schema, view, o, births[o].singleton) else view
  }

  /** Did setting one of them replace another object? */
  ghost predicate ClashOf(schema: Schema, births: map<Entry, Birth>, order: seq<Entry>) {
    order != [] &&
    (var front, o := order[..|order| - 1], order[|order| - 1];
     || ClashOf(schema, births, front)
     || (o in births && InsertReplaces(schema, ViewOf(schema, births, front), o, births[o].singleton)))
  }

  lemma {:induction false} ViewSame(schema: Schema, births: map<Entry, Birth>, births': map<Entry, Birth>, order: seq<Entry>)
    requires forall o <- order :: o in births && o in births' && births'[o] == births[o]
    ensures ViewOf(schema, births', order) == ViewOf(schema, births, order)
    ensures ClashOf(schema, births', order) == ClashOf(schema, births, order)
  {
    if order != [] {
      ViewSame(schema, births, births', order[..|order| - 1]);
    }
  }

  /** Of every object that started it is known how it came to be. */
  ghost predicate Borns(schema: Schema, h: History) {
    forall o <- h.order :: o in h.births && Built(schema, h, o.t, h.births[o], o.id)
  }

  ghost predicate Sound(schema: Schema, view: View, h: History) {
    && Borns(schema, h) && view == ViewOf(schema, h.births, h.order) && (h.clashed <==> ClashOf(schema, h.births, h.order))
    && InOrder(h.order) && Topological(h.order, h.births) && Listed(view, h.order) && Unique(KeysOf(view))
    && (!h.clashed ==> Spells(schema, view, h.order))
  }

  lemma {:induction false} PutFresh(view: View, key: string, o: Entry)
    requires key !in KeysOf(view)
    ensures Put(view, key, o) == view + [(key, o)]
  {
    if view != [] {
      assert KeysOf(view) == [view[0].0] + KeysOf(view[1..]);
      PutFresh(view[1..], key, o);
    }
  }

  lemma {:induction false} PutSame(view: View, key: string, o: Entry)
    requires Look(view, key) == Some(o)
    ensures Put(view, key, o) == view
  {
    if view[0].0 != key {
      PutSame(view[1..], key, o);
    }
  }

  lemma {:induction false} PutListed(view: View, key: string, o: Entry, order: seq<Entry>)
    requires Listed(view, order)
    ensures Listed(Put(view, key, o), order + [o])
  {
    if view != [] && view[0].0 != key {
      assert forall j :: 0 <= j < |view[1..]| ==> view[1..][j] == view[j + 1];
      PutListed(view[1..], key, o, order);
      var rest := Put(view[1..], key, o);
      assert forall j :: 0 < j < |rest| + 1 ==> ([view[0]] + rest)[j] == rest[j - 1];
      assert view[0].1 in order;
    }
  }

  lemma TopologicalGrows(order: seq<Entry>, births: map<Entry, Birth>, o: Entry, b: Birth)
    requires Topological(order, births) && o !in order && forall d <- DepsOf(b.srcs) :: d in order
    ensures Topological(order + [o], births[o := b])
  {
    hide DepsOf;
    forall i | 0 <= i < |order| + 1
      ensures forall d <- Deps(births[o := b], (order + [o])[i]) :: d in (order + [o])[..i]
    {
      assert (order + [o])[..i] == order[..i];
      assert order[..|order|] == order;
    }
  }

  // ----- one `Set` of a new object under a key

  /** Does setting `o` under `key` replace another object? */
  predicate Replaces(view: View, key: string, o: Entry) {
    Look(view, key) != None && Look(view, key) != Some(o)
  }

  function InsertedView(schema: Schema, view: View, o: Entry, singleton: bool): View {
    var named := Put(view, o.name, o);
    if singleton && o.t.Pointer? then Put(named, schema.typeName(o.t), o) else named
  }

  /** The object is then found under its name, as a singleton struct under its type's too, and all else as before. */
  lemma InsertedLook(schema: Schema, view: View, o: Entry, singleton: bool, key: string)
    ensures Look(InsertedView(schema, view, o, singleton), key)
            == if key == o.name || (singleton && o.t.Pointer? && key == schema.typeName(o.t)) then Some(o) else Look(view, key)
  {
    LookAfterPut(view, o.name, o, key);
    LookAfterPut(Put(view, o.name, o), schema.typeName(o.t), o, key);
  }

  predicate InsertReplaces(schema: Schema, view: View, o: Entry, singleton: bool) {
    || Replaces(view, o.name, o)
    || (singleton && o.t.Pointer? && Replaces(Put(view, o.name, o), schema.typeName(o.t), o))
  }

  function Recorded(schema: Schema, view: View, h: History, o: Entry, b: Birth): History {
    History(h.order + [o], h.births[o := b], h.clashed || InsertReplaces(schema, view, o, b.singleton))
  }

  lemma InsertSound(schema: Schema, view: View, h: History, o: Entry, b: Birth)
    requires Sound(schema, view, h) && o.id == |h.order| && Built(schema, h, o.t, b, o.id)
    ensures var view', h' := InsertedView(schema, view, o, b.singleton), Recorded(schema, view, h, o, b);
            && Sound(schema, view', h') && Grew(view, h, view', h') && Built(schema, h', o.t, b, o.id)
            && Look(view', o.name) == Some(o)
    ensures !InsertReplaces(schema, view, o, b.singleton) ==> view <= InsertedView(schema, view, o, b.singleton)
  {
    NewestIsNew(h, o);
    DepsStarted(schema, h, o.t, b, o.id);
    TopologicalGrows(h.order, h.births, o, b);
    hide Put, Look, Spells, Unique, KeysOf, Topological, Listed, InOrder, InsertReplaces, InsertedView, Built, DepsOf, ViewOf, ClashOf;
    Inserted(schema, view, h.order, h.clashed, o, b.singleton);
    var view', h' := InsertedView(schema, view, o, b.singleton), Recorded(schema, view, h, o, b);
    ViewMore(schema, h, o, b);
    BuiltOn(schema, view, h, view', h', o.t, b, o.id);
    BornsOn(schema, view, h, view', h', o);
  }

  lemma ViewMore(schema: Schema, h: History, o: Entry, b: Birth)
    requires Borns(schema, h) && o !in h.order
    ensures var view, births, order := ViewOf(schema, h.births, h.order), h.births[o := b], h.order + [o];
            && ViewOf(schema, births, order) == InsertedView(schema, view, o, b.singleton)
            && ClashOf(schema, births, order)
               == (ClashOf(schema, h.births, h.order) || InsertReplaces(schema, view, o, b.singleton))
  {
    hide InsertedView, InsertReplaces, Built;
    assert (h.order + [o])[..|h.order|] == h.order;
    ViewSame(schema, h.births, h.births[o := b], h.order);
  }

  lemma BornsOn(schema: Schema, view: View, h: History, view': View, h': History, o: Entry)
    requires Borns(schema, h) && Grew(view, h, view', h') && h'.order == h.order + [o]
    requires o in h'.births && Built(schema, h', o.t, h'.births[o], o.id)
    ensures Borns(schema, h')
  {
    hide Built;
    forall e <- h.order
      ensures Built(schema, h', e.t, h'.births[e], e.id)
    {
      BuiltOn(schema, view, h, view', h', e.t, h.births[e], e.id);
    }
  }

  lemma Inserted(schema: Schema, view: View, order: seq<Entry>, clashed: bool, o: Entry, singleton: bool)
    requires Listed(view, order) && Unique(KeysOf(view)) && o !in order
    requires !clashed ==> Spells(schema, view, order)
    ensures var after := InsertedView(schema, view, o, singleton);
            && Listed(after, order + [o]) && Unique(KeysOf(after)) && Look(after, o.name) == Some(o)
            && (!InsertReplaces(schema, view, o, singleton) ==>
                  view <= after && (!clashed ==> Spells(schema, after, order + [o])))
  {
    hide *;
    InsertedIs(schema, view, o, singleton);
    if singleton && o.t.Pointer? {
      TypeSetToo(schema, view, order, clashed, o);
    } else {
      NameSetOnly(schema, view, order, clashed, o);
    }
  }

  lemma InsertedIs(schema: Schema, view: View, o: Entry, singleton: bool)
    ensures var named, typ, clash := Put(view, o.name, o), schema.typeName(o.t), InsertReplaces(schema, view, o, singleton);
            if singleton && o.t.Pointer? then
              InsertedView(schema, view, o, singleton) == Put(named, typ, o)
              && (clash <==> Replaces(view, o.name, o) || Replaces(named, typ, o))
            else InsertedView(schema, view, o, singleton) == named && (clash <==> Replaces(view, o.name, o))
  {
  }

  lemma NameSetOnly(schema: Schema, view: View, order: seq<Entry>, clashed: bool, o: Entry)
    requires Listed(view, order) && Unique(KeysOf(view)) && o !in order
    requires !clashed ==> Spells(schema, view, order)
    ensures var named := Put(view, o.name, o);
            && Listed(named, order + [o]) && Unique(KeysOf(named)) && Look(named, o.name) == Some(o)
            && (!Replaces(view, o.name, o) ==> view <= named && (!clashed ==> Spells(schema, named, order + [o])))
  {
    hide *;
    NameSet(schema, view, order, clashed, o);
  }

  lemma TypeSetToo(schema: Schema, view: View, order: seq<Entry>, clashed: bool, o: Entry)
    requires Listed(view, order) && Unique(KeysOf(view)) && o !in order
    requires !clashed ==> Spells(schema, view, order)
    ensures var named, typ := Put(view, o.name, o), schema.typeName(o.t);
            var after := Put(named, typ, o);
            && Listed(after, order + [o]) && Unique(KeysOf(after)) && Look(after, o.name) == Some(o)
            && (!Replaces(view, o.name, o) && !Replaces(named, typ, o) ==>
                  view <= after && (!clashed ==> Spells(schema, after, order + [o])))
  {
    hide Put, Look, Spells, Unique, KeysOf, Listed, Replaces;
    var named, typ := Put(view, o.name, o), schema.typeName(o.t);
    NameSet(schema, view, order, clashed, o);
    PutUnique(named, typ, o);
    PutListed(named, typ, o, order + [o]);
    ListedOnce(Put(named, typ, o), order, o);
    LookAfterPut(named, typ, o, o.name);
    if !Replaces(view, o.name, o) {
      TypeSet(schema, view, order, o);
    }
  }

  lemma NewestIsNew(h: History, o: Entry)
    requires InOrder(h.order) && o.id == |h.order|
    ensures o !in h.order && InOrder(h.order + [o])
  {
  }

  lemma NameSet(schema: Schema, view: View, order: seq<Entry>, clashed: bool, o: Entry)
    requires Listed(view, order) && Unique(KeysOf(view)) && o !in order
    requires !clashed ==> Spells(schema, view, order)
    ensures var named := Put(view, o.name, o);
            && Listed(named, order + [o]) && Unique(KeysOf(named)) && Look(named, o.name) == Some(o)
            && (!Replaces(view, o.name, o) ==>
                  o.name !in KeysOf(view) && named == view + [(o.name, o)]
                  && (!clashed ==> Spells(schema, named, order + [o])))
  {
    PutListed(view, o.name, o, order);
    PutUnique(view, o.name, o);
    LookAfterPut(view, o.name, o, o.name);
    AbsentLook(view, o.name);
    if Look(view, o.name).Some? {
      ListedLook(view, o.name, order);
    } else {
      PutFresh(view, o.name, o);
      assert (order + [o])[..|order|] == order;
      assert (view + [(o.name, o)])[..|view|] == view;
    }
  }

  lemma TypeSet(schema: Schema, view: View, order: seq<Entry>, o: Entry)
    requires o !in order
    requires o.name !in KeysOf(view)
    ensures var typ := schema.typeName(o.t);
            var named := view + [(o.name, o)];
            !Replaces(named, typ, o) ==>
              && named <= Put(named, typ, o)
              && (Spells(schema, view, order) ==> Spells(schema, Put(named, typ, o), order + [o]))
  {
    var typ := schema.typeName(o.t);
    var named := view + [(o.name, o)];
    assert (order + [o])[..|order|] == order;
    assert named[..|view|] == view;
    AbsentLook(named, typ);
    if Look(named, typ) == Some(o) {
      PutSame(named, typ, o);
    } else if Look(named, typ).None? {
      PutFresh(named, typ, o);
      assert Put(named, typ, o)[..|view|] == view;
    }
  }

  lemma PutUnique(view: View, key: string, o: Entry)
    requires Unique(KeysOf(view))
    ensures Unique(KeysOf(Put(view, key, o)))
  {
    PutKeys(view, key, o);
    if key !in KeysOf(view) {
      UniqueAppend(KeysOf(view), key);
    }
  }

  lemma ListedOnce(view: View, order: seq<Entry>, o: Entry)
    requires Listed(view, order + [o] + [o])
    ensures Listed(view, order + [o])
  {
  }

  lemma {:induction false} ListedLook(view: View, key: string, order: seq<Entry>)
    requires Listed(view, order) && Look(view, key).Some?
    ensures Look(view, key).value in order
  {
    if view[0].0 != key {
      assert forall j :: 0 <= j < |view[1..]| ==> view[1..][j] == view[j + 1];
      ListedLook(view[1..], key, order);
    }
  }

  // ----- registration

  datatype Error =
    | NameEmpty | AlreadyRegistered | ExtractTag | StructField | NotPublic | DependencyNotFound | NotValid | NilValue
    | StartFailed

  /** The zero of a field's type is the one value of it that counts as zero. */
  lemma ZeroIff(schema: Schema, u: Type, v: Value)
    requires Fitting(schema, u, v) && !u.Struct? && (u.Other? ==> v != Nil)
    ensures IsZero(v) <==> v == Zero(u)
  {
  }

  /** Every injected type ranks below the struct it is injected into: the schema has no cycle. */
  ghost predicate Ranked(schema: Schema, rank: seq<nat>) {
    && |rank| == |schema.structs|
    && forall s :: 0 <= s < |schema.structs| ==> forall f <- schema.structs[s] :: Descends(schema, rank, f, rank[s])
  }

  ghost predicate Descends(schema: Schema, rank: seq<nat>, f: Field, limit: nat) {
    f.tag.Tag? ==>
      && (f.ftype.Pointer? ==> f.ftype.s < |rank| && rank[f.ftype.s] < limit)
      && (!f.ftype.Pointer? ==> forall impl <- Impls(schema, f.tag.name) ::
            AssignableTo(schema, Pointer(impl), f.ftype) ==> impl < |rank| && rank[impl] < limit)
  }

  /** `Get` of the implementation map. */
  function Impls(schema: Schema, tag: string): seq<nat> {
    if tag != "" && tag in schema.impls then schema.impls[tag] else []
  }

  function Key(schema: Schema, f: Field): string
    requires f.tag.Tag?
  {
    if f.tag.name != "" then f.tag.name else schema.typeName(f.ftype)
  }

  function NameOf(schema: Schema, name: string, t: Type): string {
    if name == "" && t.Pointer? then schema.typeName(t) else name
  }

  /** What a missing dependency is made as: the field's own struct, or one that implements its interface. */
  predicate Supplies(schema: Schema, f: Field, t: Type) {
    && f.tag.Tag?
    && if f.ftype.Pointer? then t == f.ftype
       else t.Pointer? && t.s in Impls(schema, f.tag.name) && AssignableTo(schema, t, f.ftype)
  }

  /** What is already there for a field: by tag, and for a singleton pointer also by type; by type without a tag name. */
  function Lookup(schema: Schema, view: View, f: Field): Option<Entry>
    requires f.tag.Tag?
  {
    var o := Look(view, Key(schema, f));
    if o == None && f.singleton && f.ftype.Pointer? then Look(view, schema.typeName(f.ftype)) else o
  }

  ghost predicate FieldDone(schema: Schema, births: map<Entry, Birth>, f: Field, before: Value, after: Value, src: Source) {
    match src
    case NotTagged => f.tag.Untagged? && after == before
    case Kept => f.tag.Tag? && f.exported && !IsZero(before) && !before.StructVal? && after == before
    case Absent => f.tag.Tag? && f.canNil && !f.anonymous && f.exported && IsZero(before) && after == before
    case From(d) =>
      && f.tag.Tag? && !f.anonymous && f.exported && IsZero(before)
      && d in births && Injected(schema, d.t, births[d].value, f.ftype, after)
  }

  /** How the turn of a field that is to be injected ends, when its lookup finds something of the type `there`, or nothing. */
  ghost predicate Supplied(schema: Schema, f: Field, there: Option<Type>, err: Option<Error>) {
    match there
    case Some(t) => err == if Injectable(schema, t, f.ftype) then None else Some(NotValid)
    case None =>
      if f.canNil then err == None
      else if exists t :: Supplies(schema, f, t) then err != Some(NameEmpty) && err != Some(AlreadyRegistered)
      else err == Some(DependencyNotFound)
  }

  /** What was found is judged by its type, what was registered for the field can always be injected. */
  lemma JudgedByType(schema: Schema, h: History, f: Field, there: Option<Entry>, d: Entry, p: nat)
    requires f.tag.Tag? && match there case Some(e) => d == e case None => MadeFor(schema, h, f, d, p)
    ensures Supplied(schema, f, TypeOf(there), if Injectable(schema, d.t, f.ftype) then None else Some(NotValid))
  {
  }

  /** How a field's turn ends that held `before`. */
  ghost predicate Verdict(schema: Schema, f: Field, before: Value, there: Option<Type>, err: Option<Error>) {
    match f.tag
    case Malformed => err == Some(ExtractTag)
    case Untagged => err == None
    case Tag(_) =>
      if f.exported && before.StructVal? then err == Some(StructField)
      else if f.exported && !IsZero(before) then err == None
      else if f.anonymous || !f.exported then err == Some(NotPublic)
      else Supplied(schema, f, there, err)
  }

  ghost function TypeOf(e: Option<Entry>): Option<Type> {
    match e case None => None case Some(x) => Some(x.t)
  }

  /** What is there for a field, if its tag can be read. */
  ghost function There(schema: Schema, view: View, f: Field): Option<Type> {
    if f.tag.Tag? then TypeOf(Lookup(schema, view, f)) else None
  }

  /** How many objects there are once a field has been dealt with, if there were `p` before. */
  ghost function Step(p: nat, src: Source): nat {
    if src.From? && src.dep.id >= p then src.dep.id + 1 else p
  }

  /** How many there are when the next field's turn comes. */
  ghost function Pos(began: nat, srcs: seq<Source>): (p: nat)
    ensures p >= began
  {
    if srcs == [] then began else Step(Pos(began, srcs[..|srcs| - 1]), srcs[|srcs| - 1])
  }

  /** Found missing when there were `p` objects, and registered for the field. */
  ghost predicate MadeFor(schema: Schema, h: History, f: Field, d: Entry, p: nat)
    requires f.tag.Tag?
  {
    && !f.canNil && d.id >= p && d.name == Key(schema, f) && Supplies(schema, f, d.t)
    && d in h.births && h.births[d].given == Nil && h.births[d].singleton == f.singleton && h.births[d].began == p
  }

  /**
   What the field's tag, or for a singleton pointer its type, led to when its turn came: a field is left nil only if
   that was nothing, and injected with that object, or with one registered for it if there was none.
   */
  ghost predicate Traced(schema: Schema, h: History, f: Field, p: nat, src: Source) {
    && p <= |h.order|
    && match src
       case Absent => f.tag.Tag? && Lookup(schema, ViewOf(schema, h.births, h.order[..p]), f) == None
       case From(d) =>
         && f.tag.Tag? && d in h.order
         && (match Lookup(schema, ViewOf(schema, h.births, h.order[..p]), f)
             case Some(x) => x == d && x.id < p
             case None => MadeFor(schema, h, f, d, p))
       case _ => true
  }

  /** Every field of a struct is accounted for, by registered values and by what was there when its turn came. */
  ghost predicate Wired(schema: Schema, h: History, fields: seq<Field>, before: seq<Value>, after: seq<Value>, srcs: seq<Source>,
                        began: nat)
    requires |srcs| <= |fields| == |before| == |after|
  {
    forall i :: 0 <= i < |srcs| ==>
      && FieldDone(schema, h.births, fields[i], before[i], after[i], srcs[i])
      && Traced(schema, h, fields[i], Pos(began, srcs[..i]), srcs[i])
  }

  /** What registrations, whether or not they succeed, leave as it was. */
  ghost predicate Grew(view: View, h: History, view': View, h': History) {
    && h.order <= h'.order && (h.clashed ==> h'.clashed) && (!h'.clashed ==> view <= view')
    && (forall o <- h.order :: o in h.births && o in h'.births && h'.births[o] == h.births[o])
  }

  /** Every object started in between was registered in between, for a field, so made anew and not given. */
  ghost predicate Nested(h: History, h': History) {
    forall o <- h'.order :: o in h.order || ForField(h', o, |h.order|)
  }

  ghost predicate NestedBut(h: History, h': History, e: Entry) {
    forall o <- h'.order :: o in h.order || o == e || ForField(h', o, |h.order|)
  }

  ghost predicate ForField(h: History, o: Entry, since: nat) {
    o in h.births && h.births[o].given == Nil && h.births[o].began >= since
  }

  lemma NestedOn(view: View, h: History, view1: View, h1: History, view2: View, h2: History)
    requires Nested(h, h1) && Nested(h1, h2) && Grew(view, h, view1, h1) && Grew(view1, h1, view2, h2)
    ensures Nested(h, h2)
  {
  }

  lemma GrewOn(view: View, h: History, view1: View, h1: History, view2: View, h2: History)
    requires Grew(view, h, view1, h1) && Grew(view1, h1, view2, h2)
    ensures Grew(view, h, view2, h2)
  {
    assert forall o <- h.order :: o in h1.order;
  }

  /** The newest object of the graph is `e`: under its name, and come to be as `b` says. */
  ghost predicate Entered(schema: Schema, h0: History, view: View, h: History, name: string, t: Type, b: Birth, e: Entry) {
    && |h.order| > |h0.order| && e == h.order[|h.order| - 1] && e !in h0.order
    && e.name == name && e.t == t && Look(view, name) == Some(e)
    && e in h.births && h.births[e] == b && Built(schema, h, t, b, e.id) && b.began == |h0.order| && NestedBut(h0, h, e)
  }

  lemma SoundGrew(schema: Schema, view: View, h: History)
    requires Sound(schema, view, h)
    ensures Grew(view, h, view, h)
  {
  }

  lemma TracedOn(schema: Schema, view: View, h: History, view': View, h': History, f: Field, p: nat, src: Source)
    requires Traced(schema, h, f, p, src) && Grew(view, h, view', h')
    ensures Traced(schema, h', f, p, src)
  {
    assert h'.order[..p] == h.order[..p];
    assert forall o <- h.order[..p] :: o in h.order;
    ViewSame(schema, h.births, h'.births, h.order[..p]);
  }

  lemma WiredOn(schema: Schema, view: View, h: History, view': View, h': History, fields: seq<Field>,
                before: seq<Value>, after: seq<Value>, after': seq<Value>, srcs: seq<Source>, began: nat)
    requires |srcs| <= |fields| == |before| == |after| == |after'| && after'[..|srcs|] == after[..|srcs|]
    requires Wired(schema, h, fields, before, after, srcs, began) && Grew(view, h, view', h')
    ensures Wired(schema, h', fields, before, after', srcs, began)
  {
    forall i | 0 <= i < |srcs|
      ensures FieldDone(schema, h'.births, fields[i], before[i], after'[i], srcs[i])
      ensures Traced(schema, h', fields[i], Pos(began, srcs[..i]), srcs[i])
    {
      assert after'[..|srcs|][i] == after[..|srcs|][i];
      FieldStays(schema, view, h, view', h', fields[i], before[i], after[i], Pos(began, srcs[..i]), srcs[i]);
    }
  }

  lemma FieldStays(schema: Schema, view: View, h: History, view': View, h': History, f: Field, before: Value, after: Value, p: nat,
                   src: Source)
    requires FieldDone(schema, h.births, f, before, after, src) && Traced(schema, h, f, p, src) && Grew(view, h, view', h')
    ensures FieldDone(schema, h'.births, f, before, after, src) && Traced(schema, h', f, p, src)
  {
    TracedOn(schema, view, h, view', h', f, p, src);
  }

  /** A struct left as it was given, or with every field accounted for. */
  ghost predicate Made(schema: Schema, h: History, s: nat, before: seq<Value>, after: seq<Value>, untouched: bool,
                       srcs: seq<Source>, began: nat)
    requires s < |schema.structs|
  {
    if untouched then after == before && srcs == []
    else
      && |srcs| == |before| == |after| == |schema.structs[s]|
      && Wired(schema, h, schema.structs[s], before, after, srcs, began)
  }

  lemma WiredMore(schema: Schema, view: View, h: History, view': View, h': History, fields: seq<Field>,
                  before: seq<Value>, mid: seq<Value>, after: seq<Value>, srcs: seq<Source>, src: Source, began: nat)
    requires |srcs| < |fields| == |before| == |mid| == |after| && mid[|srcs|..] == before[|srcs|..]
    requires Wired(schema, h, fields, before, mid, srcs, began) && Grew(view, h, view', h')
    requires var i := |srcs|;
             && after == mid[i := after[i]] && FieldDone(schema, h'.births, fields[i], mid[i], after[i], src)
             && Traced(schema, h', fields[i], Pos(began, srcs), src)
    ensures Wired(schema, h', fields, before, after, srcs + [src], began)
  {
    hide FieldDone, Grew, Traced, Pos;
    WiredOn(schema, view, h, view', h', fields, before, mid, after, srcs, began);
    assert mid[|srcs|..][0] == before[|srcs|..][0];
    assert forall i :: 0 <= i <= |srcs| ==> (srcs + [src])[..i] == srcs[..i];
    assert srcs[..|srcs|] == srcs;
  }

  lemma PosMore(began: nat, srcs: seq<Source>, src: Source)
    ensures Pos(began, srcs + [src]) == Step(Pos(began, srcs), src)
  {
    assert (srcs + [src])[..|srcs|] == srcs;
  }

  lemma MadeOn(schema: Schema, view: View, h: History, view': View, h': History, s: nat, before: seq<Value>, after: seq<Value>,
               untouched: bool, srcs: seq<Source>, began: nat)
    requires s < |schema.structs| && Made(schema, h, s, before, after, untouched, srcs, began)
    requires Grew(view, h, view', h')
    ensures Made(schema, h', s, before, after, untouched, srcs, began)
  {
    if !untouched {
      WiredOn(schema, view, h, view', h', schema.structs[s], before, after, after, srcs, began);
    }
  }

  /**
   A new object of type `t`, the `id`-th to start: it has the value it was given, or a struct whose fields are accounted
   for; nothing started since its registration began but what its fields needed.
   */
  ghost predicate Built(schema: Schema, h: History, t: Type, b: Birth, id: nat) {
    && Typed(schema, t, b.value) && !b.value.Nil? && id == Pos(b.began, b.srcs)
    && (b.given.Ref? ==> b.value == b.given)
    && if t.Pointer? then
         && (b.given.Nil? ==> b.before == NewFields(schema, t.s))
         && WellTyped(schema, schema.structs[t.s], b.after)
         && Made(schema, h, t.s, b.before, b.after, b.given.Ref? && b.noFill, b.srcs, b.began)
       else b.value == b.given && b.srcs == []
  }

  /** A field injected from an object of a type that can be assigned to it holds that object's value itself. */
  ghost predicate HoldsFound(schema: Schema, births: map<Entry, Birth>, t: Type, b: Birth) {
    t.Pointer? && t.s < |schema.structs| ==>
      forall i :: 0 <= i < |b.srcs| && b.srcs[i].From? ==>
        && i < |b.after| && i < |schema.structs[t.s]| && b.srcs[i].dep in births
        && (AssignableTo(schema, b.srcs[i].dep.t, schema.structs[t.s][i].ftype) ==> b.after[i] == births[b.srcs[i].dep].value)
  }

  lemma BuiltHolds(schema: Schema, h: History, t: Type, b: Birth, id: nat)
    requires Built(schema, h, t, b, id)
    ensures HoldsFound(schema, h.births, t, b)
  {
    hide Traced, Pos;
    if t.Pointer? && !(b.given.Ref? && b.noFill) {
      forall i | 0 <= i < |b.srcs| && b.srcs[i].From?
        ensures b.srcs[i].dep in h.births
        ensures AssignableTo(schema, b.srcs[i].dep.t, schema.structs[t.s][i].ftype) ==> b.after[i] == h.births[b.srcs[i].dep].value
      {
        assert FieldDone(schema, h.births, schema.structs[t.s][i], b.before[i], b.after[i], b.srcs[i]);
      }
    }
  }

  lemma AllHoldFound(schema: Schema, view: View, h: History)
    requires Sound(schema, view, h)
    ensures forall e <- h.order :: e in h.births && HoldsFound(schema, h.births, e.t, h.births[e])
  {
    hide Built, HoldsFound;
    forall e <- h.order
      ensures e in h.births && HoldsFound(schema, h.births, e.t, h.births[e])
    {
      BuiltHolds(schema, h, e.t, h.births[e], e.id);
    }
  }

  lemma GivenIsBuilt(schema: Schema, h: History, t: Type, b: Birth)
    requires !t.Pointer? && Typed(schema, t, b.value) && !b.value.Nil? && b.given == b.value && b.srcs == []
    ensures Built(schema, h, t, b, b.began)
  {
  }

  lemma StructIsBuilt(schema: Schema, h: History, t: Type, b: Birth, id: nat)
    requires t.Pointer? && Typed(schema, t, b.value) && b.value.Ref? && (b.given.Ref? ==> b.value == b.given)
    requires (b.given.Nil? ==> b.before == NewFields(schema, t.s)) && WellTyped(schema, schema.structs[t.s], b.after)
    requires if b.given.Ref? && b.noFill then b.after == b.before && b.srcs == [] && id == b.began
             else
               && |b.srcs| == |b.before| == |b.after| == |schema.structs[t.s]| && id == Pos(b.began, b.srcs)
               && Wired(schema, h, schema.structs[t.s], b.before, b.after, b.srcs, b.began)
    ensures Built(schema, h, t, b, id)
  {
  }

  lemma BuiltOn(schema: Schema, view: View, h: History, view': View, h': History, t: Type, b: Birth, id: nat)
    requires Built(schema, h, t, b, id) && Grew(view, h, view', h')
    ensures Built(schema, h', t, b, id)
  {
    if t.Pointer? {
      MadeOn(schema, view, h, view', h', t.s, b.before, b.after, b.given.Ref? && b.noFill, b.srcs, b.began);
    }
  }

  lemma DepsStarted(schema: Schema, h: History, t: Type, b: Birth, id: nat)
    requires Built(schema, h, t, b, id)
    ensures forall d <- DepsOf(b.srcs) :: d in h.order
  {
  }

  lemma EnteredBy(schema: Schema, view0: View, h0: History, view: View, h: History, e: Entry, b: Birth)
    requires Sound(schema, view, h) && Grew(view0, h0, view, h) && e.id == |h.order| && Built(schema, h, e.t, b, e.id)
    requires Nested(h0, h) && b.began == |h0.order|
    ensures var view', h' := InsertedView(schema, view, e, b.singleton), Recorded(schema, view, h, e, b);
            Grew(view0, h0, view', h') && Entered(schema, h0, view', h', e.name, e.t, b, e)
  {
    hide Sound, InsertReplaces, InsertedView, Look, Built, InOrder, Grew, Nested, NestedBut;
    var view', h' := InsertedView(schema, view, e, b.singleton), Recorded(schema, view, h, e, b);
    InsertSound(schema, view, h, e, b);
    NewestIn(schema, view0, h0, view, h, e);
    GrewOn(view0, h0, view, h, view', h');
    NestedEntered(h0, h, e, b, h');
  }

  lemma NewestIn(schema: Schema, view0: View, h0: History, view: View, h: History, e: Entry)
    requires Sound(schema, view, h) && Grew(view0, h0, view, h) && e.id == |h.order|
    ensures e !in h0.order && |h0.order| <= |h.order|
  {
    NewestIsNew(h, e);
    assert forall o <- h0.order :: o in h.order;
  }

  lemma NestedEntered(h0: History, h: History, e: Entry, b: Birth, h': History)
    requires Nested(h0, h) && h'.order == h.order + [e] && h'.births == h.births[e := b]
    ensures NestedBut(h0, h', e)
  {
  }

  // ----- which keys a registration can add

  /** Every key that registering the missing dependencies of a struct can add, however deep. */
  ghost function KeysUnder(schema: Schema, rank: seq<nat>, s: nat): set<string>
    requires Ranked(schema, rank) && s < |rank|
    decreases rank[s], 2, 0
  {
    KeysOfFields(schema, rank, schema.structs[s], rank[s])
  }

  ghost function KeysOfFields(schema: Schema, rank: seq<nat>, fields: seq<Field>, limit: nat): set<string>
    requires Ranked(schema, rank) && forall f <- fields :: Descends(schema, rank, f, limit)
    decreases limit, 1, |fields|
  {
    if fields == [] then {}
    else KeysOfFields(schema, rank, fields[..|fields| - 1], limit)
         + KeysOfField(schema, rank, fields[|fields| - 1], limit)
  }

  ghost function KeysOfField(schema: Schema, rank: seq<nat>, f: Field, limit: nat): set<string>
    requires Ranked(schema, rank) && Descends(schema, rank, f, limit)
    decreases limit, 0, 0
  {
    if !f.tag.Tag? then {}
    else if f.ftype.Pointer? then
      KeysUnder(schema, rank, f.ftype.s) + OwnKeys(schema, Key(schema, f), f.ftype, f.singleton)
    else
      set impl, k | impl in Impls(schema, f.tag.name) && AssignableTo(schema, Pointer(impl), f.ftype)
                    && k in KeysUnder(schema, rank, impl) + OwnKeys(schema, f.tag.name, Pointer(impl), f.singleton) :: k
  }

  /** The keys `set` and `setBoth` use. */
  ghost function OwnKeys(schema: Schema, name: string, t: Type, singleton: bool): set<string> {
    if singleton && t.Pointer? then {name, schema.typeName(t)} else {name}
  }

  ghost function Under(schema: Schema, rank: seq<nat>, t: Type): set<string>
    requires Ranked(schema, rank)
  {
    if t.Pointer? && t.s < |rank| then KeysUnder(schema, rank, t.s) else {}
  }

  /** An object's own keys are not among its dependencies', nor is its type name taken by another object. */
  ghost predicate Unclaimed(schema: Schema, view: View, under: set<string>, name: string, t: Type, singleton: bool) {
    && OwnKeys(schema, name, t, singleton) !! under
    && (singleton && t.Pointer? ==> schema.typeName(t) == name || Look(view, schema.typeName(t)) == None)
  }

  /** No dependency is tagged with a key that registering its own dependencies can add. */
  ghost predicate Tidy(schema: Schema, rank: seq<nat>)
    requires Ranked(schema, rank)
  {
    forall s :: 0 <= s < |rank| ==> forall f <- schema.structs[s] :: TidyField(schema, rank, f, rank[s])
  }

  ghost predicate TidyField(schema: Schema, rank: seq<nat>, f: Field, limit: nat)
    requires Ranked(schema, rank) && Descends(schema, rank, f, limit)
  {
    f.tag.Tag? ==>
      if f.ftype.Pointer? then
        OwnKeys(schema, Key(schema, f), f.ftype, f.singleton) !! KeysUnder(schema, rank, f.ftype.s)
      else
        !f.singleton && forall impl <- Impls(schema, f.tag.name) ::
          AssignableTo(schema, Pointer(impl), f.ftype) ==> f.tag.name !in KeysUnder(schema, rank, impl)
  }

  /** Only keys in `added` are new, and if `tidy`, no entry was replaced. */
  ghost predicate Tame(view: View, h: History, view': View, h': History, added: set<string>, tidy: bool) {
    && (forall k <- KeysOf(view') :: k in KeysOf(view) || k in added)
    && (tidy ==> h'.clashed == h.clashed)
  }

  lemma TameField(schema: Schema, rank: seq<nat>, view: View, h: History, view1: View, h1: History, view2: View, h2: History,
                  s: nat, i: nat)
    requires Ranked(schema, rank) && s < |rank| && i < |schema.structs[s]|
    requires var fields := schema.structs[s];
             && Tame(view, h, view1, h1, KeysOfFields(schema, rank, fields[..i], rank[s]), Tidy(schema, rank))
             && Tame(view1, h1, view2, h2, KeysOfField(schema, rank, fields[i], rank[s]), Tidy(schema, rank))
    ensures var fields := schema.structs[s];
            && Tame(view, h, view2, h2, KeysOfFields(schema, rank, fields[..i + 1], rank[s]), Tidy(schema, rank))
            && Tame(view, h, view2, h2, KeysUnder(schema, rank, s), Tidy(schema, rank))
  {
    var fields := schema.structs[s];
    assert fields[..i + 1][..i] == fields[..i];
    KeysGrow(schema, rank, fields, rank[s], i + 1);
  }

  lemma {:induction false} KeysGrow(schema: Schema, rank: seq<nat>, fields: seq<Field>, limit: nat, n: nat)
    requires Ranked(schema, rank) && (forall f <- fields :: Descends(schema, rank, f, limit)) && n <= |fields|
    ensures KeysOfFields(schema, rank, fields[..n], limit) <= KeysOfFields(schema, rank, fields, limit)
  {
    if n < |fields| {
      KeysGrow(schema, rank, fields[..|fields| - 1], limit, n);
      assert fields[..|fields| - 1][..n] == fields[..n];
    } else {
      assert fields[..n] == fields;
    }
  }

  /** What `t`, registered for a field, can add is among the field's keys; in a tidy schema its own keys are apart. */
  lemma FieldKeys(schema: Schema, rank: seq<nat>, f: Field, limit: nat, t: Type)
    requires Ranked(schema, rank) && Descends(schema, rank, f, limit) && f.tag.Tag?
    requires Supplies(schema, f, t)
    ensures var own := OwnKeys(schema, Key(schema, f), t, f.singleton);
            && Under(schema, rank, t) + own <= KeysOfField(schema, rank, f, limit)
            && (TidyField(schema, rank, f, limit) ==> own !! Under(schema, rank, t) && (f.singleton ==> f.ftype.Pointer?))
  {
    assert t.s < |rank|;
    if !f.ftype.Pointer? {
      forall k | k in KeysUnder(schema, rank, t.s) + OwnKeys(schema, f.tag.name, t, f.singleton)
        ensures k in KeysOfField(schema, rank, f, limit)
      {
      }
    }
  }

  lemma StillAbsent(view: View, h: History, view': View, h': History, added: set<string>, tidy: bool, name: string)
    requires Tame(view, h, view', h', added, tidy) && Look(view, name) == None && name !in added
    ensures Look(view', name) == None
  {
    AbsentLook(view, name);
    AbsentLook(view', name);
  }

  lemma InsertTame(schema: Schema, view: View, h: History, view1: View, h1: History, under: set<string>, tidy: bool,
                   o: Entry, b: Birth)
    requires Tame(view, h, view1, h1, under, tidy) && Look(view, o.name) == None
    ensures Tame(view, h, InsertedView(schema, view1, o, b.singleton), Recorded(schema, view1, h1, o, b),
                 under + OwnKeys(schema, o.name, o.t, b.singleton),
                 tidy && Unclaimed(schema, view, under, o.name, o.t, b.singleton))
  {
    var typ, named := schema.typeName(o.t), Put(view1, o.name, o);
    PutKeys(view1, o.name, o);
    PutKeys(named, typ, o);
    AbsentLook(view, o.name);
    AbsentLook(view, typ);
    AbsentLook(view1, o.name);
    LookAfterPut(view1, o.name, o, typ);
    AbsentLook(view1, typ);
  }

  // ----- when a registration can fail

  /** Does a field look for its dependency under `k`? */
  predicate Reads(schema: Schema, f: Field, k: string) {
    f.tag.Tag? && (k == Key(schema, f) || (f.singleton && f.ftype.Pointer? && k == schema.typeName(f.ftype)))
  }

  /** An object of type `t` may stand under `k`: every field that looks there can take it. */
  ghost predicate Suits(schema: Schema, k: string, t: Type) {
    forall s, i :: 0 <= s < |schema.structs| && 0 <= i < |schema.structs[s]| && Reads(schema, schema.structs[s][i], k)
                   ==> AssignableTo(schema, t, schema.structs[s][i].ftype)
  }

  ghost predicate Fits(schema: Schema, view: View) {
    forall j :: 0 <= j < |view| ==> Suits(schema, view[j].0, view[j].1.t)
  }

  /** Well-formed tags on public fields, something to make each dependency from, and no key for two kinds of things. */
  ghost predicate Sturdy(schema: Schema) {
    forall s, i :: 0 <= s < |schema.structs| && 0 <= i < |schema.structs[s]| ==> SturdyField(schema, schema.structs[s][i])
  }

  ghost predicate SturdyField(schema: Schema, f: Field) {
    && !f.tag.Malformed?
    && (f.tag.Tag? ==>
          && f.exported && !f.anonymous && !f.ftype.Struct?
          && (f.canNil || exists t :: Supplies(schema, f, t))
          && forall t :: Supplies(schema, f, t) ==> Welcome(schema, Key(schema, f), t, f.singleton))
  }

  ghost predicate Welcome(schema: Schema, name: string, t: Type, singleton: bool) {
    Suits(schema, name, t) && (singleton && t.Pointer? ==> Suits(schema, schema.typeName(t), t))
  }

  ghost predicate CanFail(schema: Schema) {
    exists t :: schema.startable(t)
  }

  /** In a sturdy schema nothing goes wrong but a failing `Start`, and things stay that way. */
  ghost predicate GoesWell(schema: Schema, sturdy: bool, view: View, view': View, err: Option<Error>) {
    sturdy && Fits(schema, view) ==> Fits(schema, view') && (err.Some? ==> err.value == StartFailed && CanFail(schema))
  }

  lemma {:induction false} PutMembers<V>(v: Pairs<string, V>, key: string, o: V)
    ensures forall p <- Put(v, key, o) :: p in v || p == (key, o)
  {
    if v != [] && v[0].0 != key {
      PutMembers(v[1..], key, o);
      forall p <- Put(v, key, o)
        ensures p in v || p == (key, o)
      {
        assert p == v[0] || p in Put(v[1..], key, o);
      }
    }
  }

  lemma PutFits(schema: Schema, view: View, key: string, o: Entry)
    requires Fits(schema, view) && Suits(schema, key, o.t)
    ensures Fits(schema, Put(view, key, o))
  {
    hide Suits;
    PutMembers(view, key, o);
    var w := Put(view, key, o);
    forall j | 0 <= j < |w|
      ensures Suits(schema, w[j].0, w[j].1.t)
    {
      assert w[j] in w;
    }
  }

  lemma InsertFits(schema: Schema, view: View, o: Entry, singleton: bool)
    requires Fits(schema, view) && Suits(schema, o.name, o.t)
    requires singleton && o.t.Pointer? ==> Suits(schema, schema.typeName(o.t), o.t)
    ensures Fits(schema, InsertedView(schema, view, o, singleton))
  {
    PutFits(schema, view, o.name, o);
    if singleton && o.t.Pointer? {
      PutFits(schema, Put(view, o.name, o), schema.typeName(o.t), o);
    }
  }

  lemma {:induction false} LookMember<V>(view: Pairs<string, V>, key: string)
    requires Look(view, key).Some?
    ensures (key, Look(view, key).value) in view
  {
    if view[0].0 != key {
      LookMember(view[1..], key);
    }
  }

  /** What a field finds it can take. */
  lemma FoundFits(schema: Schema, view: View, s: nat, i: nat)
    requires Fits(schema, view) && s < |schema.structs| && i < |schema.structs[s]| && schema.structs[s][i].tag.Tag?
    requires Lookup(schema, view, schema.structs[s][i]).Some?
    ensures AssignableTo(schema, Lookup(schema, view, schema.structs[s][i]).value.t, schema.structs[s][i].ftype)
  {
    var f := schema.structs[s][i];
    var k := if Look(view, Key(schema, f)).Some? then Key(schema, f) else schema.typeName(f.ftype);
    LookMember(view, k);
    assert Reads(schema, f, k);
  }

  /** The given or new struct, with its tags on public fields. */
  lemma FieldShape(schema: Schema, s: nat, values: seq<Value>, i: nat)
    requires s < |schema.structs| && i < |schema.structs[s]| && WellTyped(schema, schema.structs[s], values)
    ensures Sturdy(schema) ==> SturdyField(schema, schema.structs[s][i])
    ensures Sturdy(schema) && schema.structs[s][i].tag.Tag? ==> !values[i].StructVal?
  {
    assert Fitting(schema, schema.structs[s][i].ftype, values[i]);
  }

  lemma IsShaped(schema: Schema, s: nat, values: seq<Value>)
    requires s < |schema.structs| && WellTyped(schema, schema.structs[s], values)
    ensures |values| == |schema.structs[s]|
  {
  }

  lemma FieldSet(schema: Schema, s: nat, values: seq<Value>, i: nat, w: Value)
    requires s < |schema.structs| && i < |schema.structs[s]| && WellTyped(schema, schema.structs[s], values)
    requires Fitting(schema, schema.structs[s][i].ftype, w)
    ensures WellTyped(schema, schema.structs[s], values[i := w])
  {
  }

  lemma OnlyStartFailed(schema: Schema, sturdy: bool, view: View, view': View, t: Type)
    requires GoesWell(schema, sturdy, view, view', None) && schema.startable(t)
    ensures GoesWell(schema, sturdy, view, view', Some(StartFailed))
  {
  }

  lemma NoneSupplies(schema: Schema, rank: seq<nat>, view: View, h: History, f: Field, limit: nat)
    requires Ranked(schema, rank) && Descends(schema, rank, f, limit) && f.tag.Tag? && !f.ftype.Pointer?
    requires forall s <- Impls(schema, f.tag.name) :: !AssignableTo(schema, Pointer(s), f.ftype)
    ensures GoesWell(schema, Sturdy(schema) && SturdyField(schema, f) && !f.canNil, view, view, Some(DependencyNotFound))
    ensures Tame(view, h, view, h, KeysOfField(schema, rank, f, limit), TidyField(schema, rank, f, limit) && Tidy(schema, rank))
  {
  }

  lemma IsSupplied(schema: Schema, rank: seq<nat>, f: Field, limit: nat, t: Type)
    requires Ranked(schema, rank) && Descends(schema, rank, f, limit) && Supplies(schema, f, t)
    ensures NameOf(schema, f.tag.name, t) == Key(schema, f) && AssignableTo(schema, t, f.ftype)
    ensures t.Pointer? && t.s < |rank| && rank[t.s] < limit && Proper(schema, t, Nil)
  {
  }

  /** What registering a dependency comes to for the field it is registered for. */
  lemma SuppliedFor(schema: Schema, rank: seq<nat>, f: Field, limit: nat, t: Type, view: View, h: History, view': View, h': History,
                    err: Option<Error>)
    requires Ranked(schema, rank) && Descends(schema, rank, f, limit) && Supplies(schema, f, t)
    requires Look(view, Key(schema, f)) == None
    requires f.singleton && f.ftype.Pointer? ==> Look(view, schema.typeName(f.ftype)) == None
    requires var name, under := Key(schema, f), Under(schema, rank, t);
             if err.Some? then
               Tame(view, h, view', h', under, Tidy(schema, rank)) && GoesWell(schema, Sturdy(schema), view, view', err)
             else
               && Tame(view, h, view', h', under + OwnKeys(schema, name, t, f.singleton),
                       Tidy(schema, rank) && Unclaimed(schema, view, under, name, t, f.singleton))
               && GoesWell(schema, Sturdy(schema) && Welcome(schema, name, t, f.singleton), view, view', None)
    ensures Tame(view, h, view', h', KeysOfField(schema, rank, f, limit), TidyField(schema, rank, f, limit) && Tidy(schema, rank))
    ensures GoesWell(schema, Sturdy(schema) && SturdyField(schema, f) && !f.canNil, view, view', err)
  {
    hide KeysOfField, KeysUnder, KeysOf, Look, Fits, Suits, Sturdy, Tidy, TidyField;
    FieldKeys(schema, rank, f, limit, t);
  }

  lemma GoesWellOn(schema: Schema, sturdy: bool, view: View, view1: View, view2: View, err: Option<Error>)
    requires GoesWell(schema, sturdy, view, view1, None) && GoesWell(schema, sturdy, view1, view2, err)
    ensures GoesWell(schema, sturdy, view, view2, err)
  {
  }

  lemma GoneWell(schema: Schema, sturdy: bool, view: View, view1: View, o: Entry, singleton: bool)
    requires GoesWell(schema, sturdy, view, view1, None)
    ensures GoesWell(schema, sturdy && Welcome(schema, o.name, o.t, singleton), view,
                     InsertedView(schema, view1, o, singleton), None)
  {
    if sturdy && Fits(schema, view) && Welcome(schema, o.name, o.t, singleton) {
      InsertFits(schema, view1, o, singleton);
    }
  }

  /** How a registration that got as far as starting its object ends, for whoever asked for it. */
  ghost predicate Settled(schema: Schema, view0: View, h0: History, view: View, h: History, started: bool, e: Entry, b: Birth,
                          under: set<string>, tidy: bool, sturdy: bool)
  {
    && Grew(view0, h0, view, h)
    && if started then
         && Entered(schema, h0, view, h, e.name, e.t, b, e)
         && Tame(view0, h0, view, h, under + OwnKeys(schema, e.name, e.t, b.singleton),
                 tidy && Unclaimed(schema, view0, under, e.name, e.t, b.singleton))
         && GoesWell(schema, sturdy && Welcome(schema, e.name, e.t, b.singleton), view0, view, None)
       else
         && Tame(view0, h0, view, h, under, tidy) && GoesWell(schema, sturdy, view0, view, Some(StartFailed))
         && Nested(h0, h)
  }

  lemma SettledBirth(schema: Schema, view0: View, h0: History, view: View, h: History, e: Entry, b: Birth, under: set<string>,
                     tidy: bool, sturdy: bool)
    requires Settled(schema, view0, h0, view, h, true, e, b, under, tidy, sturdy)
    ensures e in h.births && h.births[e] == b
  {
  }

  lemma Settles(schema: Schema, view0: View, h0: History, view: View, h: History, e: Entry, b: Birth, under: set<string>,
                tidy: bool, sturdy: bool)
    requires Sound(schema, view, h) && Grew(view0, h0, view, h) && e.id == |h.order| && Built(schema, h, e.t, b, e.id)
    requires Nested(h0, h) && b.began == |h0.order|
    requires Tame(view0, h0, view, h, under, tidy) && Look(view0, e.name) == None && GoesWell(schema, sturdy, view0, view, None)
    ensures schema.startable(e.t) ==> Settled(schema, view0, h0, view, h, false, e, b, under, tidy, sturdy)
    ensures Settled(schema, view0, h0, InsertedView(schema, view, e, b.singleton), Recorded(schema, view, h, e, b), true,
                    e, b, under, tidy, sturdy)
  {
    hide Sound, Grew, Tame, GoesWell, Entered, Look, Unclaimed, Welcome, OwnKeys, Built, InsertedView, Recorded, Nested;
    InsertTame(schema, view0, h0, view, h, under, tidy, e, b);
    GoneWell(schema, sturdy, view0, view, e, b.singleton);
    EnteredBy(schema, view0, h0, view, h, e, b);
    if schema.startable(e.t) {
      OnlyStartFailed(schema, sturdy, view0, view, e.t);
    }
  }

  // ----- shutdown

  /** What a walk over entries closes: each closable object where it first meets it. */
  ghost function CloseRun(schema: Schema, walk: seq<Entry>, done: set<Entry>): seq<Entry> {
    if walk == [] then []
    else if walk[0] in done || !schema.closable(walk[0].t) then CloseRun(schema, walk[1..], done)
    else [walk[0]] + CloseRun(schema, walk[1..], done + {walk[0]})
  }

  /** The entries from the last to the first. */
  ghost function WalkBack(view: View): (walk: seq<Entry>)
    ensures |walk| == |view| && forall i :: 0 <= i < |view| ==> walk[i] == view[|view| - 1 - i].1
  {
    seq(|view|, i requires 0 <= i < |view| => view[|view| - 1 - i].1)
  }

  /** Replaced entries or not, no object is closed twice, and every closable one among the entries is closed. */
  lemma {:induction false} CloseRunOnce(schema: Schema, walk: seq<Entry>, done: set<Entry>)
    ensures Unique(CloseRun(schema, walk, done))
    ensures forall e :: e in CloseRun(schema, walk, done) <==> e in walk && schema.closable(e.t) && e !in done
  {
    if walk != [] {
      var e := walk[0];
      assert walk == [e] + walk[1..];
      var done' := if e in done || !schema.closable(e.t) then done else done + {e};
      CloseRunOnce(schema, walk[1..], done');
      assert ([e] + CloseRun(schema, walk[1..], done'))[1..] == CloseRun(schema, walk[1..], done');
    }
  }

  /** The closable objects, last started first. */
  ghost function LastFirst(schema: Schema, order: seq<Entry>): seq<Entry> {
    if order == [] then []
    else
      var front, e := order[..|order| - 1], order[|order| - 1];
      (if schema.closable(e.t) then [e] else []) + LastFirst(schema, front)
  }

  /** If no entry was ever replaced, shutdown is exactly the reverse of the order in which the objects started. */
  lemma {:induction false} CloseIsReverse(schema: Schema, view: View, order: seq<Entry>, done: set<Entry>)
    requires Spells(schema, view, order) && Distinct(order) && forall e <- order :: e !in done
    ensures CloseRun(schema, WalkBack(view), done) == LastFirst(schema, order)
  {
    if order != [] {
      var front, e := order[..|order| - 1], order[|order| - 1];
      var one, two := |view| - 1, |view| - 2;
      assert forall x <- front :: x != e;
      var done' := if schema.closable(e.t) then done + {e} else done;
      assert WalkBack(view)[1..] == WalkBack(view[..one]);
      if one >= 0 && view[one] == (e.name, e) && Spells(schema, view[..one], front) {
        CloseIsReverse(schema, view[..one], front, done');
      } else {
        assert WalkBack(view[..one])[1..] == WalkBack(view[..two]);
        CloseIsReverse(schema, view[..two], front, done');
      }
    }
  }

  lemma CloseOrder(schema: Schema, view: View, h: History)
    requires Sound(schema, view, h) && !h.clashed
    ensures CloseRun(schema, WalkBack(view), {}) == LastFirst(schema, h.order)
  {
    NumberedIsDistinct(h.order);
    CloseIsReverse(schema, view, h.order, {});
  }

  lemma {:induction false} LastFirstMembers(schema: Schema, order: seq<Entry>)
    ensures forall e :: e in LastFirst(schema, order) <==> e in order && schema.closable(e.t)
  {
    if order != [] {
      LastFirstMembers(schema, order[..|order| - 1]);
      assert order == order[..|order| - 1] + [order[|order| - 1]];
    }
  }

  lemma {:induction false} LastFirstDistinct(schema: Schema, order: seq<Entry>)
    requires Distinct(order)
    ensures Unique(LastFirst(schema, order))
  {
    if order != [] {
      var front, e := order[..|order| - 1], order[|order| - 1];
      LastFirstDistinct(schema, front);
      LastFirstMembers(schema, front);
      assert forall x <- front :: x != e;
      var rest := LastFirst(schema, front);
      assert ([e] + rest)[1..] == rest && [] + rest == rest;
    }
  }

  lemma TopologicalFront(order: seq<Entry>, births: map<Entry, Birth>)
    requires Topological(order, births) && Distinct(order) && order != []
    ensures Topological(order[..|order| - 1], births) && Distinct(order[..|order| - 1])
  {
    var front := order[..|order| - 1];
    assert forall k :: 0 <= k < |front| ==> front[..k] == order[..k] && front[k] == order[k];
  }

  /** In that order every object is closed before anything it was injected with. */
  lemma {:induction false} LastFirstIsSafe(schema: Schema, order: seq<Entry>, births: map<Entry, Birth>, i: nat, j: nat)
    requires Topological(order, births) && Distinct(order)
    requires var c := LastFirst(schema, order); i < |c| && j < |c| && c[j] in Deps(births, c[i])
    ensures i < j
  {
    hide Topological, Distinct, Unique;
    var front, e, c := order[..|order| - 1], order[|order| - 1], LastFirst(schema, order);
    TopologicalFront(order, births);
    LastFirstMembers(schema, order);
    NotLast(order, births, c[i], c[j]);
    var rest := LastFirst(schema, front);
    if !schema.closable(e.t) {
      assert c == rest;
      LastFirstIsSafe(schema, front, births, i, j);
    } else if i > 0 {
      assert c == [e] + rest && c[j] != e;
      LastFirstIsSafe(schema, front, births, i - 1, j - 1);
    }
  }

  lemma NotLast(order: seq<Entry>, births: map<Entry, Birth>, x: Entry, d: Entry)
    requires Topological(order, births) && Distinct(order) && x in order && d in Deps(births, x)
    ensures d != order[|order| - 1]
  {
    var k :| 0 <= k < |order| && order[k] == x;
    assert d in order[..k];
  }

  ghost predicate SafeShutdown(schema: Schema, h: History, c: seq<Entry>) {
    && Unique(c)
    && (forall e :: e in c <==> e in h.order && schema.closable(e.t))
    && forall i, j :: 0 <= i < |c| && 0 <= j < |c| && c[j] in Deps(h.births, c[i]) ==> i < j
  }

  /**
   Every graph that registrations without a replaced entry can lead to is shut down safely: each closable object
   that ever started is closed exactly once, and before anything it was injected with.
   */
  lemma ShutdownIsSafe(schema: Schema, view: View, h: History)
    requires Sound(schema, view, h) && !h.clashed
    ensures SafeShutdown(schema, h, CloseRun(schema, WalkBack(view), {}))
  {
    NumberedIsDistinct(h.order);
    CloseOrder(schema, view, h);
    LastFirstDistinct(schema, h.order);
    LastFirstMembers(schema, h.order);
    SoundGrew(schema, view, h);
    var c := LastFirst(schema, h.order);
    assert forall e <- c :: e in h.order;
    forall i, j | 0 <= i < |c| && 0 <= j < |c| && c[j] in Deps(h.births, c[i])
      ensures i < j
    {
      LastFirstIsSafe(schema, h.order, h.births, i, j);
    }
  }

  /** Setting a key keeps every earlier entry where it was exactly when it replaces no other object. */
  lemma {:induction false} PutKeepsIff(view: View, key: string, o: Entry)
    ensures view <= Put(view, key, o) <==> !Replaces(view, key, o)
  {
    AbsentLook(view, key);
    if Look(view, key) == None {
      PutFresh(view, key, o);
    } else if view[0].0 != key {
      PutKeepsIff(view[1..], key, o);
      var rest := Put(view[1..], key, o);
      assert Put(view, key, o)[1..] == rest;
      if view <= Put(view, key, o) {
        assert view[1..] <= rest;
      }
    }
  }

  /** Is the object still there, under whatever key? */
  ghost predicate Present(view: View, e: Entry) {
    exists i :: 0 <= i < |view| && view[i].1 == e
  }

  /** Every closable object that started is closed once, iff each of them still has an entry. */
  lemma ClosedIffPresent(schema: Schema, view: View, h: History)
    requires Sound(schema, view, h)
    ensures var c := CloseRun(schema, WalkBack(view), {});
            && Unique(c)
            && (forall e :: e in c <==> schema.closable(e.t) && Present(view, e))
            && (forall e <- c :: e in h.order)
            && ((forall e <- h.order :: schema.closable(e.t) ==> e in c)
                <==> forall e <- h.order :: schema.closable(e.t) ==> Present(view, e))
  {
    hide Unique, KeysOf, Spells, Topological, CloseRun;
    var walk := WalkBack(view);
    CloseRunOnce(schema, walk, {});
    forall e
      ensures e in walk <==> Present(view, e)
    {
      if i :| 0 <= i < |view| && view[i].1 == e {
        assert walk[|view| - 1 - i] == e;
      }
      if j :| 0 <= j < |walk| && walk[j] == e {
        assert view[|view| - 1 - j].1 == e;
      }
    }
  }

  /** Keys stay, whatever takes them. */
  lemma {:induction false} KeysStay(schema: Schema, births: map<Entry, Birth>, order: seq<Entry>, n: nat, key: string)
    requires n <= |order| && key in KeysOf(ViewOf(schema, births, order[..n]))
    ensures key in KeysOf(ViewOf(schema, births, order))
  {
    if n == |order| {
      assert order[..n] == order;
    } else {
      var front, o := order[..|order| - 1], order[|order| - 1];
      assert front[..n] == order[..n];
      KeysStay(schema, births, front, n, key);
      var view := ViewOf(schema, births, front);
      PutKeys(view, o.name, o);
      PutKeys(Put(view, o.name, o), schema.typeName(o.t), o);
    }
  }

  lemma {:induction false} ClashStays(schema: Schema, births: map<Entry, Birth>, order: seq<Entry>, n: nat)
    requires n <= |order| && ClashOf(schema, births, order[..n])
    ensures ClashOf(schema, births, order)
  {
    if n == |order| {
      assert order[..n] == order;
    } else {
      assert order[..|order| - 1][..n] == order[..n];
      ClashStays(schema, births, order[..|order| - 1], n);
    }
  }

  lemma {:induction false} ViewLists(schema: Schema, births: map<Entry, Birth>, order: seq<Entry>)
    ensures Listed(ViewOf(schema, births, order), order)
  {
    if order != [] {
      var front, o := order[..|order| - 1], order[|order| - 1];
      ViewLists(schema, births, front);
      assert order == front + [o];
      var view := ViewOf(schema, births, front);
      PutListed(view, o.name, o, front);
      PutListed(Put(view, o.name, o), schema.typeName(o.t), o, order);
      if o in births && births[o].singleton && o.t.Pointer? {
        ListedOnce(Put(Put(view, o.name, o), schema.typeName(o.t), o), front, o);
      }
    }
  }

  /** A new object whose name is taken replaces what has it. */
  lemma TakesOver(schema: Schema, view: View, h: History, k: nat)
    requires Sound(schema, view, h) && k < |h.order| && h.order[k].name in KeysOf(ViewOf(schema, h.births, h.order[..k]))
    ensures h.clashed
  {
    hide Built, KeysOf, Listed, Look, Spells, Unique, Topological, ClashOf, ViewOf, Replaces, InOrder;
    NewestIsOther(h.order, k);
    NameReplaces(ViewOf(schema, h.births, h.order[..k]), schema, h.births, h.order, k);
    assert h.order[k] in h.births;
    ClashHere(schema, h.births, h.order, k);
    ClashStays(schema, h.births, h.order, k + 1);
  }

  lemma NewestIsOther(order: seq<Entry>, k: nat)
    requires InOrder(order) && k < |order|
    ensures order[k] !in order[..k]
  {
  }

  lemma NameReplaces(was: View, schema: Schema, births: map<Entry, Birth>, order: seq<Entry>, k: nat)
    requires k < |order| && was == ViewOf(schema, births, order[..k]) && order[k].name in KeysOf(was) && order[k] !in order[..k]
    ensures Replaces(was, order[k].name, order[k])
  {
    AbsentLook(was, order[k].name);
    ViewLists(schema, births, order[..k]);
    hide KeysOf, ViewOf, Look, Listed;
    ListedLook(was, order[k].name, order[..k]);
  }

  lemma ClashHere(schema: Schema, births: map<Entry, Birth>, order: seq<Entry>, k: nat)
    requires k < |order| && order[k] in births && Replaces(ViewOf(schema, births, order[..k]), order[k].name, order[k])
    ensures ClashOf(schema, births, order[..k + 1])
  {
    hide Replaces, Look, Put;
    assert order[..k + 1][..k] == order[..k] && order[..k + 1][k] == order[k];
  }

  lemma HasKey(schema: Schema, births: map<Entry, Birth>, order: seq<Entry>, i: nat)
    requires i < |order| && order[i] in births
    ensures order[i].name in KeysOf(ViewOf(schema, births, order[..i + 1]))
  {
    var o := order[i];
    assert order[..i + 1][..i] == order[..i] && order[..i + 1][i] == o;
    var view := ViewOf(schema, births, order[..i]);
    PutKeys(view, o.name, o);
    PutKeys(Put(view, o.name, o), schema.typeName(o.t), o);
  }

  /** An object with a dependency that its tag finds under the object's own name: one has replaced the other. */
  lemma SelfNamedClashes(schema: Schema, view: View, h: History, e: Entry, i: nat)
    requires Sound(schema, view, h) && e in h.order && e.t.Pointer?
    requires var srcs, fields := h.births[e].srcs, schema.structs[e.t.s];
             && i < |srcs| && i < |fields| && srcs[i].From? && fields[i].tag.Tag?
             && Key(schema, fields[i]) == e.name && !fields[i].singleton
    ensures h.clashed && h.births[e].srcs[i].dep in h.order && h.births[e].srcs[i].dep != e
  {
    NumberedIsDistinct(h.order);
    var k :| 0 <= k < |h.order| && h.order[k] == e;
    var d := h.births[e].srcs[i].dep;
    assert d in Deps(h.births, e) && d in h.order[..k];
    NameWasThere(schema, h, k, i);
    TakesOver(schema, view, h, k);
  }

  /** What is known of one field of a started object. */
  lemma FieldKnown(schema: Schema, h: History, e: Entry, i: nat)
    requires Borns(schema, h) && e in h.order && e.t.Pointer?
    requires i < |h.births[e].srcs| && i < |schema.structs[e.t.s]|
    ensures var b := h.births[e];
            && Traced(schema, h, schema.structs[e.t.s][i], Pos(b.began, b.srcs[..i]), b.srcs[i])
            && Pos(b.began, b.srcs[..i]) <= e.id
  {
    var b := h.births[e];
    assert Built(schema, h, e.t, b, e.id);
    PosGrows(b.began, b.srcs, i);
  }

  /** What a field found under `order[k]`'s name, or was given there, stood there before. */
  lemma NameWasThere(schema: Schema, h: History, k: nat, i: nat)
    requires Borns(schema, h) && InOrder(h.order) && Topological(h.order, h.births) && k < |h.order| && h.order[k].t.Pointer?
    requires var e := h.order[k];
             var srcs, fields := h.births[e].srcs, schema.structs[e.t.s];
             && i < |srcs| && i < |fields| && srcs[i].From? && fields[i].tag.Tag?
             && Key(schema, fields[i]) == e.name && !fields[i].singleton
    ensures h.order[k].name in KeysOf(ViewOf(schema, h.births, h.order[..k]))
  {
    hide Built, KeysOf, ViewOf, Pos, DepsOf;
    var e := h.order[k];
    var b, d := h.births[e], h.births[e].srcs[i].dep;
    var p := Pos(b.began, b.srcs[..i]);
    FieldKnown(schema, h, e, i);
    IsDep(b.srcs, i);
    assert d in Deps(h.births, e) && d in h.order[..k];
    StoodThere(schema, h, k, p, d, e.name);
  }

  lemma IsDep(srcs: seq<Source>, i: nat)
    requires i < |srcs| && srcs[i].From?
    ensures srcs[i].dep in DepsOf(srcs)
  {
  }

  lemma StoodThere(schema: Schema, h: History, k: nat, p: nat, d: Entry, name: string)
    requires p <= k <= |h.order| && InOrder(h.order) && d in h.order[..k] && d in h.births
    requires Look(ViewOf(schema, h.births, h.order[..p]), name) == None ==> d.name == name
    ensures name in KeysOf(ViewOf(schema, h.births, h.order[..k]))
  {
    hide KeysOf, ViewOf, Look;
    AbsentLook(ViewOf(schema, h.births, h.order[..p]), name);
    if name in KeysOf(ViewOf(schema, h.births, h.order[..p])) {
      assert h.order[..k][..p] == h.order[..p];
      KeysStay(schema, h.births, h.order[..k], p, name);
    } else {
      assert h.order[d.id] == d;
      HasKey(schema, h.births, h.order, d.id);
      assert h.order[..k][..d.id + 1] == h.order[..d.id + 1];
      KeysStay(schema, h.births, h.order[..k], d.id + 1, name);
    }
  }

  lemma {:induction false} PosGrows(began: nat, srcs: seq<Source>, i: nat)
    requires i <= |srcs|
    ensures Pos(began, srcs[..i]) <= Pos(began, srcs)
  {
    if i == |srcs| {
      assert srcs[..i] == srcs;
    } else {
      assert srcs[..|srcs| - 1][..i] == srcs[..i];
      PosGrows(began, srcs[..|srcs| - 1], i);
    }
  }

  // ----- what the objects see of it

  /** A call of an object's own `Start` that succeeded, or of its `Close`. */
  datatype Mark = Up(e: Entry) | Down(e: Entry)

  /** The objects that have a `Start`, in the order they started. */
  ghost function Ups(schema: Schema, order: seq<Entry>): seq<Mark> {
    if order == [] then []
    else
      var front, e := order[..|order| - 1], order[|order| - 1];
      Ups(schema, front) + if schema.startable(e.t) then [Up(e)] else []
  }

  ghost function Downs(closings: seq<Entry>): (t: seq<Mark>)
    ensures |t| == |closings| && forall i :: 0 <= i < |t| ==> t[i] == Down(closings[i])
  {
    seq(|closings|, i requires 0 <= i < |closings| => Down(closings[i]))
  }

  lemma UpsMore(schema: Schema, order: seq<Entry>, e: Entry)
    ensures Ups(schema, order + [e]) == Ups(schema, order) + if schema.startable(e.t) then [Up(e)] else []
  {
    assert (order + [e])[..|order|] == order;
  }

  lemma DownsMore(closings: seq<Entry>, e: Entry)
    ensures Downs(closings + [e]) == Downs(closings) + [Down(e)]
  {
  }

  ghost predicate NoneTwice(t: seq<Mark>) {
    forall i, j :: 0 <= i < j < |t| ==> t[i] != t[j]
  }

  /** No object's `Start` is called before that of what it was injected with has succeeded. */
  ghost predicate StartsInOrder(schema: Schema, births: map<Entry, Birth>, t: seq<Mark>) {
    forall j :: 0 <= j < |t| && t[j].Up? ==> forall d <- Deps(births, t[j].e) :: schema.startable(d.t) ==> Up(d) in t[..j]
  }

  /** No object's `Close` is called after that of what it was injected with. */
  ghost predicate ClosesInOrder(births: map<Entry, Birth>, t: seq<Mark>) {
    forall i, j :: 0 <= i < |t| && 0 <= j < |t| && t[i].Down? && t[j].Down? && t[j].e in Deps(births, t[i].e) ==> i < j
  }

  /** Every object that has a `Start` is started once, after what it was injected with, and before anything is closed. */
  ghost predicate WellStarted(schema: Schema, h: History, t: seq<Mark>) {
    && NoneTwice(t) && StartsInOrder(schema, h.births, t)
    && (forall e :: Up(e) in t <==> e in h.order && schema.startable(e.t))
    && forall i, j :: 0 <= i < |t| && 0 <= j < |t| && t[i].Up? && t[j].Down? ==> i < j
  }

  /** Every object that has a `Close` is closed, before what it was injected with. */
  ghost predicate WellClosed(schema: Schema, h: History, t: seq<Mark>) {
    (forall e :: Down(e) in t <==> e in h.order && schema.closable(e.t)) && ClosesInOrder(h.births, t)
  }

  lemma {:induction false} UpsAre(schema: Schema, order: seq<Entry>)
    ensures forall m <- Ups(schema, order) :: m.Up?
    ensures forall e :: Up(e) in Ups(schema, order) <==> e in order && schema.startable(e.t)
  {
    if order != [] {
      var front, e := order[..|order| - 1], order[|order| - 1];
      UpsAre(schema, front);
      assert order == front + [e];
    }
  }

  lemma {:induction false} UpsInOrder(schema: Schema, order: seq<Entry>, births: map<Entry, Birth>)
    requires Topological(order, births) && Distinct(order)
    ensures StartsInOrder(schema, births, Ups(schema, order)) && NoneTwice(Ups(schema, order))
  {
    if order != [] {
      var front, e, t := order[..|order| - 1], order[|order| - 1], Ups(schema, order);
      TopologicalFront(order, births);
      UpsInOrder(schema, front, births);
      UpsAre(schema, front);
      var before := Ups(schema, front);
      assert forall j :: 0 <= j <= |before| ==> t[..j] == before[..j];
      assert before[..|before|] == before;
      assert order[..|front|] == front;
      assert forall x <- front :: x != e;
    }
  }

  lemma DownsAre(closings: seq<Entry>)
    requires Unique(closings)
    ensures NoneTwice(Downs(closings)) && forall m <- Downs(closings) :: m.Down?
    ensures forall e :: Down(e) in Downs(closings) <==> e in closings
  {
    UniqueIsDistinct(closings);
    forall e | e in closings
      ensures Down(e) in Downs(closings)
    {
      var i :| 0 <= i < |closings| && closings[i] == e;
      assert Downs(closings)[i] == Down(e);
    }
  }

  lemma StartsStay(schema: Schema, births: map<Entry, Birth>, ups: seq<Mark>, downs: seq<Mark>)
    requires StartsInOrder(schema, births, ups) && NoneTwice(ups) && (forall m <- ups :: m.Up?)
    requires NoneTwice(downs) && forall m <- downs :: m.Down?
    ensures StartsInOrder(schema, births, ups + downs) && NoneTwice(ups + downs)
    ensures forall i, j :: 0 <= i < |ups + downs| && 0 <= j < |ups + downs| && (ups + downs)[i].Up? && (ups + downs)[j].Down? ==> i < j
  {
    hide Deps;
    var t := ups + downs;
    assert forall j :: 0 <= j < |ups| ==> t[j] == ups[j] && t[j] in ups;
    assert forall j :: |ups| <= j < |t| ==> t[j] == downs[j - |ups|] && t[j] in downs;
    forall i, j | 0 <= i < j < |t|
      ensures t[i] != t[j]
    {
    }
    forall j | 0 <= j < |t| && t[j].Up?
      ensures forall d <- Deps(births, t[j].e) :: schema.startable(d.t) ==> Up(d) in t[..j]
    {
      assert j < |ups| && ups[..j] == t[..j] && t[j] == ups[j];
    }
  }

  lemma ClosesStay(schema: Schema, h: History, ups: seq<Mark>, closings: seq<Entry>)
    requires SafeShutdown(schema, h, closings) && forall m <- ups :: m.Up?
    ensures ClosesInOrder(h.births, ups + Downs(closings))
  {
    hide Deps, Unique;
    var t := ups + Downs(closings);
    assert forall i :: 0 <= i < |ups| ==> t[i] == ups[i] && t[i] in ups;
    forall i, j | 0 <= i < |t| && 0 <= j < |t| && t[i].Down? && t[j].Down? && t[j].e in Deps(h.births, t[i].e)
      ensures i < j
    {
      assert closings[i - |ups|] == t[i].e && closings[j - |ups|] == t[j].e;
    }
  }

  /** So the objects of a graph see a run in which all is in order, and a shutdown that is if it is safe. */
  lemma RunIsOrderly(schema: Schema, view: View, h: History, closings: seq<Entry>)
    requires Sound(schema, view, h) && Unique(closings)
    ensures var t := Ups(schema, h.order) + Downs(closings);
            WellStarted(schema, h, t) && (SafeShutdown(schema, h, closings) ==> WellClosed(schema, h, t))
  {
    hide Borns, Spells, Listed, KeysOf, Deps, ViewOf, ClashOf, Unique, Ups, Topological, InOrder, StartsInOrder, NoneTwice, ClosesInOrder,
         Downs, Distinct;
    var ups, downs := Ups(schema, h.order), Downs(closings);
    NumberedIsDistinct(h.order);
    UpsAre(schema, h.order);
    UpsInOrder(schema, h.order, h.births);
    DownsAre(closings);
    StartsStay(schema, h.births, ups, downs);
    assert forall m :: m in ups + downs <==> m in ups || m in downs;
    if SafeShutdown(schema, h, closings) {
      ClosesStay(schema, h, ups, closings);
    }
  }

  // ----- shutdown after entries were replaced

  /** The last place at which an object stands, or -1. */
  ghost function LastAt(view: View, e: Entry): (i: int)
    ensures i < |view|
  {
    if view == [] then -1
    else if view[|view| - 1].1 == e then |view| - 1 else LastAt(view[..|view| - 1], e)
  }

  lemma LastOf(view: View)
    requires view != []
    ensures forall e :: LastAt(view, e) == if view[|view| - 1].1 == e then |view| - 1 else LastAt(view[..|view| - 1], e)
  {
  }

  lemma RunUnfolds(schema: Schema, view: View, done: set<Entry>)
    ensures view == [] ==> CloseRun(schema, WalkBack(view), done) == []
    ensures view != [] ==>
              var x, front := view[|view| - 1].1, view[..|view| - 1];
              CloseRun(schema, WalkBack(view), done)
              == if x in done || !schema.closable(x.t) then CloseRun(schema, WalkBack(front), done)
                 else [x] + CloseRun(schema, WalkBack(front), done + {x})
  {
    if view != [] {
      assert WalkBack(view)[1..] == WalkBack(view[..|view| - 1]);
    }
  }

  /** Objects are closed by their last places, from the last to the first. */
  lemma {:induction false} ClosedByLast(schema: Schema, view: View, done: set<Entry>, i: nat, j: nat)
    requires i < j < |CloseRun(schema, WalkBack(view), done)|
    ensures var c := CloseRun(schema, WalkBack(view), done); LastAt(view, c[j]) < LastAt(view, c[i])
  {
    RunUnfolds(schema, view, done);
    hide Unique, LastAt, CloseRun, WalkBack;
    var x, front, c := view[|view| - 1].1, view[..|view| - 1], CloseRun(schema, WalkBack(view), done);
    LastOf(view);
    if x in done || !schema.closable(x.t) {
      CloseRunOnce(schema, WalkBack(front), done);
      ClosedByLast(schema, front, done, i, j);
      assert c[i] in c && c[j] in c;
    } else {
      var rest := CloseRun(schema, WalkBack(front), done + {x});
      CloseRunOnce(schema, WalkBack(front), done + {x});
      assert c == [x] + rest && c[j] == rest[j - 1] && rest[j - 1] in rest;
      if i > 0 {
        assert c[i] == rest[i - 1] && rest[i - 1] in rest;
        ClosedByLast(schema, front, done + {x}, i - 1, j - 1);
      }
    }
  }

  /**
   Shutdown is safe iff every closable object still has an entry and the last key of each stands after the last keys
   of what it was injected with.
   */
  lemma SafeIff(schema: Schema, view: View, h: History)
    requires Sound(schema, view, h)
    ensures SafeShutdown(schema, h, CloseRun(schema, WalkBack(view), {})) <==>
              && (forall e <- h.order :: schema.closable(e.t) ==> Present(view, e))
              && forall e <- h.order :: forall d <- Deps(h.births, e) ::
                   schema.closable(e.t) && schema.closable(d.t) ==> LastAt(view, d) < LastAt(view, e)
  {
    hide Unique, Sound, CloseRun, Present, Deps, LastAt, WalkBack, SafeShutdown;
    var c := CloseRun(schema, WalkBack(view), {});
    if SafeShutdown(schema, h, c) {
      SafeClosesAll(schema, view, h);
      DepsAreListed(schema, view, h);
      forall e, d | e in h.order && d in Deps(h.births, e) && schema.closable(e.t) && schema.closable(d.t)
        ensures LastAt(view, d) < LastAt(view, e)
      {
        SafeMeansLater(schema, view, h, e, d);
      }
    } else if forall e <- h.order :: schema.closable(e.t) ==> Present(view, e) {
      UnsafeIsLate(schema, view, h);
    }
  }

  lemma SafeClosesAll(schema: Schema, view: View, h: History)
    requires Sound(schema, view, h) && SafeShutdown(schema, h, CloseRun(schema, WalkBack(view), {}))
    ensures forall e <- h.order :: schema.closable(e.t) ==> Present(view, e)
  {
    hide Sound, CloseRun, Present, Deps;
    ClosedIffPresent(schema, view, h);
  }

  lemma UnsafeIsLate(schema: Schema, view: View, h: History)
    requires Sound(schema, view, h) && !SafeShutdown(schema, h, CloseRun(schema, WalkBack(view), {}))
    requires forall e <- h.order :: schema.closable(e.t) ==> Present(view, e)
    ensures exists e, d :: e in h.order && d in Deps(h.births, e) && schema.closable(e.t) && schema.closable(d.t)
                           && LastAt(view, d) >= LastAt(view, e)
  {
    hide Unique, Sound, CloseRun, Present, Deps, LastAt;
    var c := CloseRun(schema, WalkBack(view), {});
    ClosedIffPresent(schema, view, h);
    var i, j :| 0 <= i < |c| && 0 <= j < |c| && c[j] in Deps(h.births, c[i]) && i >= j;
    ClosedNoLater(schema, view, j, i);
    assert c[i] in c && c[j] in c;
  }

  lemma ClosedNoLater(schema: Schema, view: View, i: nat, j: nat)
    requires i <= j < |CloseRun(schema, WalkBack(view), {})|
    ensures var c := CloseRun(schema, WalkBack(view), {}); LastAt(view, c[j]) <= LastAt(view, c[i])
  {
    if i < j {
      ClosedByLast(schema, view, {}, i, j);
    }
  }

  lemma SafeMeansLater(schema: Schema, view: View, h: History, e: Entry, d: Entry)
    requires SafeShutdown(schema, h, CloseRun(schema, WalkBack(view), {}))
    requires e in h.order && d in h.order && d in Deps(h.births, e) && schema.closable(e.t) && schema.closable(d.t)
    ensures LastAt(view, d) < LastAt(view, e)
  {
    hide Unique, CloseRun, Deps, LastAt, WalkBack;
    var c := CloseRun(schema, WalkBack(view), {});
    var i :| 0 <= i < |c| && c[i] == e;
    var j :| 0 <= j < |c| && c[j] == d;
    ClosedByLast(schema, view, {}, i, j);
  }

  lemma DepsAreListed(schema: Schema, view: View, h: History)
    requires Sound(schema, view, h)
    ensures forall e <- h.order :: forall d <- Deps(h.births, e) :: d in h.order
  {
    hide Built, DepsOf;
    forall e <- h.order
      ensures forall d <- Deps(h.births, e) :: d in h.order
    {
      DepsStarted(schema, h, e.t, h.births[e], e.id);
    }
  }

  /** An object that takes the key of its first dependency is closed after its second one. */
  lemma {:induction false} ReplacedIsLate(schema: Schema, first: Entry, second: Entry, e: Entry)
    requires first.name == e.name != second.name && schema.closable(second.t) && schema.closable(e.t)
    ensures var view := InsertedView(schema, InsertedView(schema, InsertedView(schema, [], first, false), second, false), e, false);
            CloseRun(schema, WalkBack(view), {}) == [second, e] && LastAt(view, e) < LastAt(view, second)
  {
    var a, b := (e.name, e), (second.name, second);
    var view := InsertedView(schema, InsertedView(schema, InsertedView(schema, [], first, false), second, false), e, false);
    assert Put([(first.name, first)], second.name, second) == [(first.name, first), b];
    assert Put([(first.name, first), b], e.name, e) == [a, b];
    assert WalkBack(view) == [second, e];
    assert [second, e][1..] == [e] && [e][1..] == [];
    var none: set<Entry> := {};
    assert none + {second} == {second};
    assert CloseRun(schema, [second, e], none) == [second] + CloseRun(schema, [e], none + {second});
    assert CloseRun(schema, [e], {second}) == [e];
    assert view[..1] == [a];
    assert LastAt([a], e) == 0;
    assert LastAt(view, second) == 1;
    assert LastAt(view, e) == 0;
  }
}
