/**
 The graph object of runtime/inject: `register` with its loop over the fields of a struct and its recursion into
 missing dependencies, and `Close`, on the ordered map of utls/orderedmap.
 */
module InjectCode {
  import opened Wrappers
  import opened OrderedMap
  import opened Inject

  class Object {
    const Name: string
    const reflectType: Type
    var Value: Value
    var closed: bool

    ghost const id: nat

    constructor (name: string, t: Type, value: Value, ghost id: nat)
      ensures Name == name && reflectType == t && this.id == id && Value == value && !closed && AsEntry() == Entry(id, name, t)
    {
      Name, reflectType, Value, closed, this.id := name, t, value, false, id;
    }

    ghost function AsEntry(): Entry {
      Entry(id, Name, reflectType)
    }
  }

  /** A call of an object's own `Start` that succeeded, or of its `Close`. */
  datatype Event = Started(o: Object) | Closed(o: Object)

  ghost function TraceOf(events: seq<Event>): (t: seq<Mark>)
    ensures |t| == |events|
  {
    seq(|events|, i requires 0 <= i < |events| =>
      match events[i] case Started(o) => Up(o.AsEntry()) case Closed(o) => Down(o.AsEntry()))
  }

  lemma TraceMore(events: seq<Event>, event: Event)
    ensures TraceOf(events + [event])
            == TraceOf(events) + [match event case Started(o) => Up(o.AsEntry()) case Closed(o) => Down(o.AsEntry())]
  {
  }

  ghost function Entries(v: Pairs<string, Object>): (w: View)
    ensures |w| == |v|
    ensures forall i :: 0 <= i < |v| ==> w[i] == (v[i].0, v[i].1.AsEntry())
  {
    seq(|v|, i requires 0 <= i < |v| => (v[i].0, v[i].1.AsEntry()))
  }

  lemma {:induction false} EntriesPut(v: Pairs<string, Object>, key: string, o: Object)
    ensures Entries(Put(v, key, o)) == Put(Entries(v), key, o.AsEntry())
  {
    if v != [] {
      assert Entries(v)[1..] == Entries(v[1..]);
      if v[0].0 == key {
        assert Entries([(key, o)] + v[1..]) == [(key, o.AsEntry())] + Entries(v[1..]);
      } else {
        EntriesPut(v[1..], key, o);
        assert Entries([v[0]] + Put(v[1..], key, o)) == [Entries(v)[0]] + Entries(Put(v[1..], key, o));
      }
    } else {
      assert Entries([(key, o)]) == [(key, o.AsEntry())];
    }
  }

  lemma {:induction false} EntriesLook(v: Pairs<string, Object>, key: string)
    ensures Look(Entries(v), key) == (match Look(v, key) case None => None case Some(o) => Some(o.AsEntry()))
  {
    if v != [] {
      assert Entries(v)[1..] == Entries(v[1..]);
      EntriesLook(v[1..], key);
    }
  }

  /** An object's number is its own. */
  ghost predicate Numbered(objs: set<Object>) {
    forall o <- objs, o' <- objs :: o.id == o'.id ==> o == o'
  }

  ghost predicate Backed(objs: set<Object>, e: Entry) {
    exists o <- objs :: o.AsEntry() == e
  }

  /** The structs the objects point to. */
  ghost function Structs(objs: set<Object>): set<Instance>
    reads objs
  {
    set o | o in objs && o.Value.Ref? :: o.Value.p
  }

  /** Their fields are as they were when the objects started. */
  ghost predicate Holding(objs: set<Object>, births: map<Entry, Birth>)
    reads objs, Structs(objs)
  {
    forall o <- objs :: o.Value.Ref? ==> o.AsEntry() in births && o.Value.p.fields == births[o.AsEntry()].after
  }

  lemma HoldingOn(objs0: set<Object>, objs1: set<Object>, objs2: set<Object>, view1: View, h1: History, view2: View, h2: History)
    requires objs0 <= objs1 <= objs2 && forall o <- objs1 :: o.AsEntry() in h1.order
    requires Holding(objs1 - objs0, h1.births) && Holding(objs2 - objs1, h2.births) && Grew(view1, h1, view2, h2)
    ensures Holding(objs2 - objs0, h2.births) && Structs(objs2 - objs0) == Structs(objs1 - objs0) + Structs(objs2 - objs1)
  {
    forall p | p in Structs(objs2 - objs0)
      ensures p in Structs(objs1 - objs0) + Structs(objs2 - objs1)
    {
      var o :| o in objs2 - objs0 && o.Value.Ref? && o.Value.p == p;
      assert o in objs1 - objs0 || o in objs2 - objs1;
    }
  }

  /** The first `i` fields of a struct are dealt with, `srcs` says how, and all that came with it is accounted for. */
  ghost predicate Filled(schema: Schema, rank: seq<nat>, s: nat, i: nat, view0: View, h0: History, objs0: set<Object>,
                         before: seq<Value>, view: View, h: History, objs: set<Object>, fields: seq<Value>, srcs: seq<Source>)
    requires Ranked(schema, rank) && s < |rank| && i <= |schema.structs[s]|
    reads objs - objs0, Structs(objs - objs0)
  {
    && Left(schema, rank, s, view0, h0, objs0, before, view, h, objs, fields, None)
    && Tame(view0, h0, view, h, KeysOfFields(schema, rank, schema.structs[s][..i], rank[s]), Tidy(schema, rank))
    && |fields| == |before| == |schema.structs[s]| && |srcs| == i && fields[i..] == before[i..]
    && Wired(schema, h, schema.structs[s], before, fields, srcs, |h0.order|) && |h.order| == Pos(|h0.order|, srcs)
  }

  /** What the loop over the fields leaves, whether or not it ended in an error. */
  ghost predicate Left(schema: Schema, rank: seq<nat>, s: nat, view0: View, h0: History, objs0: set<Object>,
                       before: seq<Value>, view: View, h: History, objs: set<Object>, fields: seq<Value>, err: Option<Error>)
    requires Ranked(schema, rank) && s < |rank|
    reads objs - objs0, Structs(objs - objs0)
  {
    && Grew(view0, h0, view, h) && Nested(h0, h) && objs0 <= objs && Holding(objs - objs0, h.births)
    && Tame(view0, h0, view, h, KeysUnder(schema, rank, s), Tidy(schema, rank))
    && GoesWell(schema, Sturdy(schema), view0, view, err) && Lasting(before, fields)
  }

  /** One more field is dealt with. */
  lemma FilledOn(schema: Schema, rank: seq<nat>, s: nat, i: nat, view0: View, h0: History, objs0: set<Object>, before: seq<Value>,
                 view1: View, h1: History, objs1: set<Object>, fields1: seq<Value>, srcs: seq<Source>,
                 view2: View, h2: History, objs2: set<Object>, fields2: seq<Value>, err: Option<Error>, src: Source)
    requires Ranked(schema, rank) && s < |rank| && i < |schema.structs[s]|
    requires Filled(schema, rank, s, i, view0, h0, objs0, before, view1, h1, objs1, fields1, srcs)
    requires objs1 <= objs2 && (forall o <- objs1 :: o.AsEntry() in h1.order) && Holding(objs2 - objs1, h2.births)
    requires Grew(view1, h1, view2, h2) && Nested(h1, h2) && GoesWell(schema, Sturdy(schema), view1, view2, err)
    requires Tame(view1, h1, view2, h2, KeysOfField(schema, rank, schema.structs[s][i], rank[s]), Tidy(schema, rank))
    requires Lasting(fields1, fields2) && |fields2| == |fields1| && fields2 == fields1[i := fields2[i]]
    requires err.None? ==>
               && FieldDone(schema, h2.births, schema.structs[s][i], fields1[i], fields2[i], src)
               && Traced(schema, h2, schema.structs[s][i], |h1.order|, src) && |h2.order| == Step(|h1.order|, src)
    ensures Left(schema, rank, s, view0, h0, objs0, before, view2, h2, objs2, fields2, err)
    ensures Structs(objs2 - objs0) == Structs(objs1 - objs0) + Structs(objs2 - objs1)
    ensures err.None? ==> Filled(schema, rank, s, i + 1, view0, h0, objs0, before, view2, h2, objs2, fields2, srcs + [src])
  {
    hide Grew, Nested, Tame, GoesWell, Wired, KeysOfFields, KeysOfField, KeysUnder, Holding, Structs, Tidy, FieldDone, Traced, Lasting, Pos,
         Step;
    HoldingOn(objs0, objs1, objs2, view1, h1, view2, h2);
    LastingOn(before, fields1, fields2);
    GrewOn(view0, h0, view1, h1, view2, h2);
    NestedOn(view0, h0, view1, h1, view2, h2);
    TameField(schema, rank, view0, h0, view1, h1, view2, h2, s, i);
    GoesWellOn(schema, Sturdy(schema), view0, view1, view2, err);
    if err.None? {
      WiredMore(schema, view1, h1, view2, h2, schema.structs[s], before, fields1, fields2, srcs, src, |h0.order|);
      PosMore(|h0.order|, srcs, src);
    }
  }

  ghost function EntryOf(o: Option<Object>): Option<Entry> {
    match o case None => None case Some(x) => Some(x.AsEntry())
  }

  function ErrorOf<T>(r: Result<T, Error>): Option<Error> {
    match r case Ok(_) => None case Err(e) => Some(e)
  }

  /** A birth of what was registered so. */
  ghost predicate IsBirth(b: Birth, given: Value, singleton: bool, noFill: bool, began: nat) {
    b.given == given && b.singleton == singleton && b.noFill == noFill && b.began == began
  }

  /** After `i` entries of the walk these are closed, and that is what can be seen. */
  ghost predicate Closing(schema: Schema, walk: seq<Entry>, i: nat, closings: seq<Entry>, t0: seq<Mark>, t: seq<Mark>) {
    && i <= |walk| && t == t0 + Downs(closings)
    && closings + CloseRun(schema, walk[i..], set e | e in closings) == CloseRun(schema, walk, {})
  }

  lemma ClosingFirst(schema: Schema, walk: seq<Entry>, t: seq<Mark>)
    ensures Closing(schema, walk, 0, [], t, t)
  {
    var closings: seq<Entry> := [];
    assert (set e | e in closings) == {} && walk[0..] == walk;
  }

  lemma ClosingOn(schema: Schema, walk: seq<Entry>, i: nat, closings: seq<Entry>, t0: seq<Mark>, t: seq<Mark>)
    requires i < |walk| && Closing(schema, walk, i, closings, t0, t)
    ensures if walk[i] in closings || !schema.closable(walk[i].t) then Closing(schema, walk, i + 1, closings, t0, t)
            else Closing(schema, walk, i + 1, closings + [walk[i]], t0, t + [Down(walk[i])])
  {
    assert walk[i..][0] == walk[i] && walk[i..][1..] == walk[i + 1..];
    assert (set e | e in closings + [walk[i]]) == (set e | e in closings) + {walk[i]};
    DownsMore(closings, walk[i]);
  }

  lemma ClosingDone(schema: Schema, walk: seq<Entry>, closings: seq<Entry>, t0: seq<Mark>, t: seq<Mark>)
    requires Closing(schema, walk, |walk|, closings, t0, t)
    ensures closings == CloseRun(schema, walk, {}) && t == t0 + Downs(closings)
  {
  }

  class Graph {
    const schema: Schema
    const named: OrderedMap<string, Object>
    ghost var view: View
    ghost var hist: History
    ghost var objects: set<Object>
    /** What has been called on the objects, in that order; nothing in the graph looks at it. */
    var events: seq<Event>

    ghost predicate Mirrors()
      reads `view, `objects, named, named.ring, named.ring.Repr
    {
      named.Valid() && view == Entries(named.View()) && forall p <- named.View() :: p.1 in objects
    }

    /** The objects are those that started; none is closed, and each has the value it was registered with. */
    ghost predicate Alive()
      reads `hist, `objects, objects
    {
      AliveIn(hist, objects)
    }

    static ghost predicate AliveIn(h: History, objs: set<Object>)
      reads objs
    {
      && Numbered(objs)
      && (forall e <- h.order :: Backed(objs, e))
      && forall o <- objs ::
           !o.closed && o.AsEntry() in h.order && o.AsEntry() in h.births && o.Value == h.births[o.AsEntry()].value
    }

    ghost predicate Valid()
      reads `view, `hist, `objects, `events, named, named.ring, named.ring.Repr, objects
    {
      Mirrors() && Alive() && Sound(schema, view, hist) && TraceOf(events) == Ups(schema, hist.order)
    }

    constructor (schema: Schema)
      ensures Valid() && this.schema == schema && view == [] && hist == History([], map[], false) && objects == {}
      ensures events == [] && fresh(named) && fresh(named.ring) && fresh(named.ring.Repr)
    {
      this.schema := schema;
      named := new OrderedMap();
      view, hist, objects, events := [], History([], map[], false), {}, [];
    }

    method Find(name: string) returns (o: Option<Object>)
      requires Valid()
      ensures EntryOf(o) == Look(view, name)
      ensures o.Some? ==> o.value in objects && o.value.AsEntry() in hist.order
    {
      o := named.Get(name);
      EntriesLook(named.View(), name);
      if o.Some? {
        ListedLook(view, name, hist.order);
        LookMember(named.View(), name);
      }
    }

    method FindByType(t: Type) returns (o: Option<Object>)
      requires Valid()
      ensures EntryOf(o) == Look(view, schema.typeName(t))
      ensures o.Some? ==> o.value in objects && o.value.AsEntry() in hist.order
    {
      o := Find(schema.typeName(t));
    }

    method Set(key: string, o: Object)
      requires Mirrors() && o in objects
      modifies this`view, named, named.ring, named.ring.Repr
      ensures Mirrors() && view == Put(old(view), key, o.AsEntry())
      ensures fresh(named.ring.Repr - old(named.ring.Repr))
    {
      EntriesPut(named.View(), key, o);
      PutMembers(named.View(), key, o);
      view := Put(view, key, o.AsEntry());
      hide Put, Entries, Look, Unique, KeysOf, Linked, Named, Recalled;
      named.Set(key, o);
    }

    /** `setBoth` for a singleton struct pointer, `set` for the rest. */
    method SetAll(o: Object, singleton: bool)
      requires Mirrors() && o in objects
      modifies this`view, named, named.ring, named.ring.Repr
      ensures Mirrors() && view == InsertedView(schema, old(view), o.AsEntry(), singleton)
      ensures fresh(named.ring.Repr - old(named.ring.Repr))
    {
      Set(o.Name, o);
      if singleton && o.reflectType.Pointer? {
        Set(schema.typeName(o.reflectType), o);
      }
    }

    /** An object that has just been started goes into the graph. */
    method Insert(o: Object, ghost b: Birth, singleton: bool)
      requires Mirrors() && Alive() && Sound(schema, view, hist) && TraceOf(events) == Ups(schema, hist.order + [o.AsEntry()])
      requires o.id == |hist.order| && !o.closed && o.Value == b.value && b.singleton == singleton
      requires Built(schema, hist, o.reflectType, b, o.id)
      modifies this`view, this`hist, this`objects, named, named.ring, named.ring.Repr
      ensures Valid() && fresh(named.ring.Repr - old(named.ring.Repr))
      ensures objects == old(objects) + {o}
      ensures view == InsertedView(schema, old(view), o.AsEntry(), singleton)
      ensures hist == Recorded(schema, old(view), old(hist), o.AsEntry(), b)
      ensures Grew(old(view), old(hist), view, hist) && Look(view, o.Name) == Some(o.AsEntry())
    {
      hide Ups, TraceOf, ViewOf, ClashOf, Spells, Put, Look, Unique, KeysOf, Topological, Listed, Replaces, InsertReplaces, InsertedView, Borns, Built, Grew;
      InsertSound(schema, view, hist, o.AsEntry(), b);
      Begin(o, b);
      hide Mirrors, Alive, Sound;
      SetAll(o, singleton);
    }

    /** The history takes note of it. */
    ghost method Begin(o: Object, b: Birth)
      requires Mirrors() && Alive() && InOrder(hist.order) && o.id == |hist.order| && !o.closed && o.Value == b.value
      modifies this`hist, this`objects
      ensures Mirrors() && Alive() && objects == old(objects) + {o}
      ensures hist == Recorded(schema, view, old(hist), o.AsEntry(), b)
    {
      hide InsertReplaces, Entries, Backed, Numbered, Alive;
      ghost var all, h := objects + {o}, Recorded(schema, view, hist, o.AsEntry(), b);
      StillAlive(o, b, h, all);
      Note(h, all);
    }

    ghost method Note(h: History, all: set<Object>)
      requires Mirrors() && objects <= all && AliveIn(h, all)
      modifies this`hist, this`objects
      ensures Mirrors() && Alive() && objects == all && hist == h
    {
      hide Entries, Backed, Numbered;
      hist, objects := h, all;
    }

    lemma StillAlive(o: Object, b: Birth, h: History, all: set<Object>)
      requires Alive() && InOrder(hist.order) && o.id == |hist.order| && !o.closed && o.Value == b.value && all == objects + {o}
      requires h.order == hist.order + [o.AsEntry()] && h.births == hist.births[o.AsEntry() := b]
      ensures AliveIn(h, all)
    {
      forall e <- h.order
        ensures Backed(all, e)
      {
        if e in hist.order {
          assert Backed(objects, e);
        }
      }
      NewestIsNew(hist, o.AsEntry());
    }

    method FindFor(f: Field) returns (o: Option<Object>)
      requires Valid() && f.tag.Tag?
      ensures EntryOf(o) == Lookup(schema, view, f)
      ensures var byTag, byType := Look(view, f.tag.name), Look(view, schema.typeName(f.ftype));
              EntryOf(o) == if f.tag.name == "" || (byTag == None && f.singleton && f.ftype.Pointer?) then byType else byTag
      ensures o.Some? ==> o.value in objects && o.value.AsEntry() in hist.order
    {
      if f.tag.name != "" {
        o := Find(f.tag.name);
        if f.singleton && o.None? && f.ftype.Pointer? {
          o := FindByType(f.ftype);
        }
      } else {
        o := FindByType(f.ftype);
      }
    }

    method FirstImpl(tag: string, t: Type) returns (impl: Option<nat>)
      ensures impl.Some? ==> impl.value in Impls(schema, tag) && AssignableTo(schema, Pointer(impl.value), t)
      ensures impl.Some? ==> exists i :: 0 <= i < |schema.impls[tag]| && schema.impls[tag][i] == impl.value
                                         && forall s <- schema.impls[tag][..i] :: !AssignableTo(schema, Pointer(s), t)
      ensures impl.None? ==> forall s <- Impls(schema, tag) :: !AssignableTo(schema, Pointer(s), t)
      ensures impl.None? ==> tag == "" || tag !in schema.impls || forall s <- schema.impls[tag] :: !AssignableTo(schema, Pointer(s), t)
    {
      var impls := Impls(schema, tag);
      for i := 0 to |impls|
        invariant forall s <- impls[..i] :: !AssignableTo(schema, Pointer(s), t)
      {
        if AssignableTo(schema, Pointer(impls[i]), t) {
          return Some(impls[i]);
        }
      }
      return None;
    }

    ghost function Height(rank: seq<nat>, t: Type): nat {
      if t.Pointer? && t.s < |rank| then rank[t.s] else 0
    }

    /** The dependency, once its type is chosen. */
    method ProvideAs(ghost rank: seq<nat>, ghost limit: nat, f: Field, t: Type, noFill: bool) returns (found: Result<Object, Error>)
      requires Valid() && Ranked(schema, rank) && f.tag.Tag? && !f.canNil && Descends(schema, rank, f, limit) && Supplies(schema, f, t)
      requires Look(view, Key(schema, f)) == None
      requires f.singleton && f.ftype.Pointer? ==> Look(view, schema.typeName(f.ftype)) == None
      modifies this`view, this`hist, this`objects, this`events, named, named.ring, named.ring.Repr
      ensures Valid() && fresh(named.ring.Repr - old(named.ring.Repr)) && fresh(objects - old(objects))
      ensures old(objects) <= objects && Holding(objects - old(objects), hist.births)
      ensures fresh(Structs(objects - old(objects)))
      ensures Grew(old(view), old(hist), view, hist) && Nested(old(hist), hist)
      ensures Tame(old(view), old(hist), view, hist, KeysOfField(schema, rank, f, limit),
                   TidyField(schema, rank, f, limit) && Tidy(schema, rank))
      ensures GoesWell(schema, Sturdy(schema) && SturdyField(schema, f), old(view), view, ErrorOf(found))
      ensures found.Err? ==> found.error != AlreadyRegistered && found.error != NameEmpty
      ensures found.Ok? ==>
                && found.value in objects && found.value.AsEntry() in hist.order
                && |hist.order| > |old(hist).order| && found.value.AsEntry() == hist.order[|hist.order| - 1]
                && found.value.AsEntry() !in old(hist).order && Look(view, Key(schema, f)) == Some(found.value.AsEntry())
                && found.value.reflectType.Pointer? && AssignableTo(schema, found.value.reflectType, f.ftype)
                && MadeFor(schema, hist, f, found.value.AsEntry(), |old(hist).order|)
      decreases limit, 0
    {
      hide Mirrors, Alive, Sound, Grew, Tame, GoesWell, Look, Tidy, Sturdy, TidyField, SturdyField, KeysOfField, Under, OwnKeys, Unclaimed,
           Welcome, Ranked, Descends, Supplies, Built, Proper, KeysUnder, Valid, Holding, Lasting, Numbered, Backed;
      ghost var objects0 := objects;
      IsSupplied(schema, rank, f, limit, t);
      var r, e, b := Register(rank, f.tag.name, t, Nil, f.singleton, noFill);
      SuppliedFor(schema, rank, f, limit, t, old(view), old(hist), view, hist, ErrorOf(r));
      if r.Err? {
        return Err(r.error);
      }
      MadeForIt(f, t, old(hist), b, e);
      var o := FindMade(Key(schema, f), objects0);
      return Ok(o.value);
    }

    /** A missing dependency is registered under the field's tag: a new struct of its type, or of an implementation. */
    method Provide(ghost rank: seq<nat>, ghost limit: nat, f: Field, noFill: bool) returns (found: Result<Object, Error>)
      requires Valid() && Ranked(schema, rank) && f.tag.Tag? && !f.canNil && Descends(schema, rank, f, limit)
      requires Look(view, Key(schema, f)) == None
      requires f.singleton && f.ftype.Pointer? ==> Look(view, schema.typeName(f.ftype)) == None
      modifies this`view, this`hist, this`objects, this`events, named, named.ring, named.ring.Repr
      ensures Valid() && fresh(named.ring.Repr - old(named.ring.Repr)) && fresh(objects - old(objects))
      ensures old(objects) <= objects && Holding(objects - old(objects), hist.births)
      ensures fresh(Structs(objects - old(objects)))
      ensures Grew(old(view), old(hist), view, hist) && Nested(old(hist), hist)
      ensures Tame(old(view), old(hist), view, hist, KeysOfField(schema, rank, f, limit),
                   TidyField(schema, rank, f, limit) && Tidy(schema, rank))
      ensures GoesWell(schema, Sturdy(schema) && SturdyField(schema, f), old(view), view, ErrorOf(found))
      ensures Supplied(schema, f, None, ErrorOf(found))
      ensures found.Ok? ==>
                && found.value in objects && found.value.AsEntry() in hist.order
                && |hist.order| > |old(hist).order| && found.value.AsEntry() == hist.order[|hist.order| - 1]
                && found.value.AsEntry() !in old(hist).order && Look(view, Key(schema, f)) == Some(found.value.AsEntry())
                && found.value.reflectType.Pointer? && AssignableTo(schema, found.value.reflectType, f.ftype)
                && MadeFor(schema, hist, f, found.value.AsEntry(), |old(hist).order|)
      decreases limit, 1
    {
      hide Mirrors, Alive, Sound, Tame, GoesWell, Look, Tidy, Sturdy, TidyField, SturdyField, KeysOfField, Welcome, Ranked, Descends,
           Holding;
      var t := f.ftype;
      if !t.Pointer? {
        var impl := FirstImpl(f.tag.name, t);
        if impl.None? {
          SoundGrew(schema, view, hist);
          NoneHold(objects, hist.births);
          NoneSupplies(schema, rank, view, hist, f, limit);
          return Err(DependencyNotFound);
        }
        t := Pointer(impl.value);
      }
      found := ProvideAs(rank, limit, f, t, noFill);
    }

    lemma MadeForIt(f: Field, t: Type, hist0: History, b: Birth, e: Entry)
      requires Valid() && Supplies(schema, f, t) && Entered(schema, hist0, view, hist, Key(schema, f), t, b, e)
      requires !f.canNil && b.given == Nil && b.singleton == f.singleton && b.began == |hist0.order|
      ensures MadeFor(schema, hist, f, e, |hist0.order|)
    {
    }

    /** `Find` disturbs nothing that is known of the objects. */
    method FindMade(name: string, ghost objects0: set<Object>) returns (o: Option<Object>)
      requires Valid() && Holding(objects - objects0, hist.births)
      ensures Valid() && Holding(objects - objects0, hist.births) && Structs(objects - objects0) == old(Structs(objects - objects0))
      ensures EntryOf(o) == Look(view, name)
      ensures o.Some? ==> o.value in objects && o.value.AsEntry() in hist.order
    {
      hide Mirrors, Alive, Sound, Look;
      o := Find(name);
      forall x <- objects - objects0 | x.Value.Ref?
        ensures x.AsEntry() in hist.births && x.Value.p.fields == hist.births[x.AsEntry()].after
      {
        assert x.Value.p in old(Structs(objects - objects0));
        assert x.Value.p.fields == old(x.Value.p.fields);
      }
    }

    lemma IsSound()
      requires Valid()
      ensures Sound(schema, view, hist)
    {
    }

    lemma Known()
      requires Valid()
      ensures forall o <- objects :: o.AsEntry() in hist.order
    {
    }

    lemma HasValue(o: Object)
      requires Valid() && o in objects
      ensures o.AsEntry() in hist.births && o.Value == hist.births[o.AsEntry()].value && Typed(schema, o.reflectType, o.Value)
    {
    }

    /** The value of what was found goes into the field, converted if need be. */
    method Place(v: Instance, i: nat, o: Object) returns (placed: bool)
      requires Valid() && o in objects && v.stype < |schema.structs|
      requires i < |schema.structs[v.stype]| && WellTyped(schema, schema.structs[v.stype], v.fields)
      modifies v
      ensures WellTyped(schema, schema.structs[v.stype], v.fields) && |v.fields| == |old(v.fields)|
      ensures o.AsEntry() in hist.births && hist.births[o.AsEntry()].value == o.Value
      ensures var t, u := o.reflectType, schema.structs[v.stype][i].ftype;
              && (placed <==> Injectable(schema, t, u))
              && (AssignableTo(schema, t, u) ==> placed && v.fields == old(v.fields)[i := o.Value])
              && (placed ==> Injected(schema, t, o.Value, u, v.fields[i]))
      ensures v.fields == if placed then old(v.fields)[i := v.fields[i]] else old(v.fields)
    {
      hide Mirrors, Sound, Fitting, Typed, Injected, Carried;
      HasValue(o);
      var u := schema.structs[v.stype][i].ftype;
      CarriedIsInjected(schema, o.reflectType, o.Value, u);
      var carried := Carried(schema, o.reflectType, o.Value, u);
      placed := carried.Some?;
      if placed {
        CarriedFits(schema, o.reflectType, o.Value, u);
        assert Injected(schema, o.reflectType, o.Value, u, carried.value);
        FieldSet(schema, v.stype, v.fields, i, carried.value);
        v.fields := v.fields[i := carried.value];
      }
    }

    /** What a field is to be injected with: what is there already, or what is registered for it. */
    method Supply(ghost rank: seq<nat>, s: nat, i: nat, noFill: bool) returns (found: Result<Option<Object>, Error>)
      requires Valid() && Ranked(schema, rank) && s < |schema.structs| && i < |schema.structs[s]|
      requires var f := schema.structs[s][i]; f.tag.Tag? && f.exported && !f.anonymous
      modifies this`view, this`hist, this`objects, this`events, named, named.ring, named.ring.Repr
      ensures Valid() && fresh(named.ring.Repr - old(named.ring.Repr)) && fresh(objects - old(objects))
      ensures old(objects) <= objects && Holding(objects - old(objects), hist.births)
      ensures fresh(Structs(objects - old(objects)))
      ensures Grew(old(view), old(hist), view, hist) && Nested(old(hist), hist)
      ensures Tame(old(view), old(hist), view, hist, KeysOfField(schema, rank, schema.structs[s][i], rank[s]), Tidy(schema, rank))
      ensures GoesWell(schema, Sturdy(schema), old(view), view, ErrorOf(found))
      ensures found.Err? ==> found.error != AlreadyRegistered && found.error != NameEmpty
      ensures Lookup(schema, old(view), schema.structs[s][i]).Some? ==> found.Ok?
      ensures Lookup(schema, old(view), schema.structs[s][i]) == None ==> Supplied(schema, schema.structs[s][i], None, ErrorOf(found))
      ensures found == Ok(None) ==>
                schema.structs[s][i].canNil && Lookup(schema, old(view), schema.structs[s][i]) == None
                && view == old(view) && hist == old(hist)
      ensures found.Ok? && found.value.Some? ==>
                var f, o := schema.structs[s][i], found.value.value;
                && o in objects && o.AsEntry() in hist.order
                && (Sturdy(schema) && Fits(schema, old(view)) ==> AssignableTo(schema, o.reflectType, f.ftype))
                && match Lookup(schema, old(view), f)
                   case Some(e) => o.AsEntry() == e && view == old(view) && hist == old(hist)
                   case None => MadeFor(schema, hist, f, o.AsEntry(), |old(hist).order|) && o.AsEntry() == hist.order[|hist.order| - 1]
      decreases Height(rank, Pointer(s)), 2
    {
      hide Valid, Look, Grew, Nested, Tame, GoesWell, Tidy, TidyField, Sturdy, SturdyField, Fits, KeysOfField, Holding, Structs, MadeFor;
      Unprovided(rank, s, i);
      var f := schema.structs[s][i];
      var there := FindFor(f);
      if there.Some? {
        Suitable(s, i);
        return Ok(there);
      }
      if f.canNil {
        return Ok(None);
      }
      var made := Provide(rank, rank[s], f, noFill);
      found := if made.Ok? then Ok(Some(made.value)) else Err(made.error);
    }

    /** A field that is to be injected: with what is there, or with what is registered for it. */
    method InjectField(ghost rank: seq<nat>, v: Instance, i: nat, noFill: bool) returns (err: Option<Error>, ghost src: Source)
      requires Valid() && Ranked(schema, rank) && v.stype < |schema.structs|
      requires i < |schema.structs[v.stype]| && WellTyped(schema, schema.structs[v.stype], v.fields)
      requires var f := schema.structs[v.stype][i]; f.tag.Tag? && f.exported && !f.anonymous && IsZero(v.fields[i])
      modifies this`view, this`hist, this`objects, this`events, named, named.ring, named.ring.Repr, v
      ensures Valid() && fresh(named.ring.Repr - old(named.ring.Repr)) && fresh(objects - old(objects))
      ensures old(objects) <= objects && Holding(objects - old(objects), hist.births)
      ensures fresh(Structs(objects - old(objects)))
      ensures Grew(old(view), old(hist), view, hist) && Nested(old(hist), hist)
      ensures Tame(old(view), old(hist), view, hist,
                   KeysOfField(schema, rank, schema.structs[v.stype][i], rank[v.stype]), Tidy(schema, rank))
      ensures GoesWell(schema, Sturdy(schema), old(view), view, err)
      ensures WellTyped(schema, schema.structs[v.stype], v.fields)
      ensures |v.fields| == |old(v.fields)| && v.fields == old(v.fields)[i := v.fields[i]]
      ensures Lasting(old(v.fields), v.fields)
      ensures err.Some? ==> v.fields == old(v.fields) && err.value != AlreadyRegistered && err.value != NameEmpty
      ensures Supplied(schema, schema.structs[v.stype][i], TypeOf(Lookup(schema, old(view), schema.structs[v.stype][i])), err)
      ensures err.None? ==> FieldDone(schema, hist.births, schema.structs[v.stype][i], old(v.fields[i]), v.fields[i], src)
      ensures err.None? && src.From? ==>
                && src.dep in hist.order
                && match Lookup(schema, old(view), schema.structs[v.stype][i])
                   case Some(e) => src.dep == e && view == old(view) && hist == old(hist)
                   case None =>
                     && MadeFor(schema, hist, schema.structs[v.stype][i], src.dep, |old(hist).order|)
                     && src.dep == hist.order[|hist.order| - 1]
      ensures err.None? && src.Absent? ==> Lookup(schema, old(view), schema.structs[v.stype][i]) == None
      ensures err.None? && !src.From? ==> view == old(view) && hist == old(hist)
      decreases Height(rank, Pointer(v.stype)), 3
    {
      hide Mirrors, Alive, Sound, Look, Lookup, Grew, Nested, Tame, Holding, KeysOfField, Tidy, Fits, Sturdy, CanFail, Fitting, Typed,
           MadeFor, Descends, Numbered, Backed, Supplied, Injectable, Injected;
      var f := schema.structs[v.stype][i];
      var found := Supply(rank, v.stype, i, noFill);
      if found.Err? {
        return Some(found.error), NotTagged;
      }
      if found.value.None? {
        assert Lookup(schema, old(view), f) == None;
        return None, Absent;
      }
      JudgedByType(schema, hist, f, Lookup(schema, old(view), f), found.value.value.AsEntry(), |old(hist).order|);
      var placed := Place(v, i, found.value.value);
      return if placed then None else Some(NotValid), From(found.value.value.AsEntry());
    }

    /** One turn of the loop over the fields. */
    method FillField(ghost rank: seq<nat>, v: Instance, i: nat, noFill: bool) returns (err: Option<Error>, ghost src: Source)
      requires Valid() && Ranked(schema, rank) && v.stype < |schema.structs|
      requires i < |schema.structs[v.stype]| && WellTyped(schema, schema.structs[v.stype], v.fields)
      modifies this`view, this`hist, this`objects, this`events, named, named.ring, named.ring.Repr, v
      ensures Valid() && fresh(named.ring.Repr - old(named.ring.Repr)) && fresh(objects - old(objects))
      ensures old(objects) <= objects && Holding(objects - old(objects), hist.births)
      ensures fresh(Structs(objects - old(objects)))
      ensures Grew(old(view), old(hist), view, hist) && Nested(old(hist), hist)
      ensures Tame(old(view), old(hist), view, hist,
                   KeysOfField(schema, rank, schema.structs[v.stype][i], rank[v.stype]), Tidy(schema, rank))
      ensures GoesWell(schema, Sturdy(schema), old(view), view, err)
      ensures WellTyped(schema, schema.structs[v.stype], v.fields)
      ensures |v.fields| == |old(v.fields)| && v.fields == old(v.fields)[i := v.fields[i]]
      ensures Lasting(old(v.fields), v.fields)
      ensures err.Some? ==> v.fields == old(v.fields) && err.value != AlreadyRegistered && err.value != NameEmpty
      ensures Verdict(schema, schema.structs[v.stype][i], old(v.fields[i]), There(schema, old(view), schema.structs[v.stype][i]), err)
      ensures err.None? ==> FieldDone(schema, hist.births, schema.structs[v.stype][i], old(v.fields[i]), v.fields[i], src)
      ensures err.None? && src.From? ==>
                && src.dep in hist.order
                && match Lookup(schema, old(view), schema.structs[v.stype][i])
                   case Some(e) => src.dep == e && view == old(view) && hist == old(hist)
                   case None =>
                     && MadeFor(schema, hist, schema.structs[v.stype][i], src.dep, |old(hist).order|)
                     && src.dep == hist.order[|hist.order| - 1]
      ensures err.None? && src.Absent? ==> Lookup(schema, old(view), schema.structs[v.stype][i]) == None
      ensures err.None? && !src.From? ==> view == old(view) && hist == old(hist)
      decreases Height(rank, Pointer(v.stype)), 4
    {
      hide Mirrors, Spells, Put, Look, Unique, KeysOf, Topological, Listed, Replaces, InsertReplaces, InsertedView, Alive, Borns,
           KeysUnder, KeysOfFields, KeysOfField, Fits, Suits, CanFail, Welcome, Fitting, Typed;
      SoundGrew(schema, view, hist);
      var f := schema.structs[v.stype][i];
      src := NotTagged;
      if f.tag.Malformed? {
        return Some(ExtractTag), src;
      }
      if f.tag.Untagged? {
        return None, src;
      }
      FieldShape(schema, v.stype, v.fields, i);
      if f.exported {
        if v.fields[i].StructVal? {
          return Some(StructField), src;
        }
        if !IsZero(v.fields[i]) {
          return None, Kept;
        }
      }
      if f.anonymous || !f.exported {
        return Some(NotPublic), src;
      }
      err, src := InjectField(rank, v, i, noFill);
    }

    /** Nothing has happened yet to the graph on account of the field. */
    lemma Unprovided(rank: seq<nat>, s: nat, i: nat)
      requires Valid() && Ranked(schema, rank) && s < |schema.structs| && i < |schema.structs[s]|
      ensures Grew(view, hist, view, hist) && Nested(hist, hist) && Holding(objects - objects, hist.births)
      ensures Tame(view, hist, view, hist, KeysOfField(schema, rank, schema.structs[s][i], rank[s]), Tidy(schema, rank))
      ensures GoesWell(schema, Sturdy(schema), view, view, None) && Structs(objects - objects) == {}
      ensures Descends(schema, rank, schema.structs[s][i], rank[s])
      ensures Tidy(schema, rank) ==> TidyField(schema, rank, schema.structs[s][i], rank[s])
      ensures Sturdy(schema) ==> SturdyField(schema, schema.structs[s][i])
    {
      NothingDone(KeysOfField(schema, rank, schema.structs[s][i], rank[s]), Tidy(schema, rank), Nil);
    }

    lemma Suitable(s: nat, i: nat)
      requires s < |schema.structs| && i < |schema.structs[s]| && schema.structs[s][i].tag.Tag?
      requires Lookup(schema, view, schema.structs[s][i]).Some?
      ensures Fits(schema, view) ==>
                AssignableTo(schema, Lookup(schema, view, schema.structs[s][i]).value.t, schema.structs[s][i].ftype)
    {
      if Fits(schema, view) {
        FoundFits(schema, view, s, i);
      }
    }

    /** The loop over the fields of a struct. */
    method Fill(ghost rank: seq<nat>, v: Instance, noFill: bool) returns (err: Option<Error>, ghost srcs: seq<Source>)
      requires Valid() && Ranked(schema, rank) && v.stype < |schema.structs|
      requires WellTyped(schema, schema.structs[v.stype], v.fields)
      modifies this`view, this`hist, this`objects, this`events, named, named.ring, named.ring.Repr, v
      ensures Valid() && fresh(named.ring.Repr - old(named.ring.Repr)) && fresh(objects - old(objects))
      ensures old(objects) <= objects && Holding(objects - old(objects), hist.births)
      ensures fresh(Structs(objects - old(objects)))
      ensures Grew(old(view), old(hist), view, hist) && Nested(old(hist), hist)
      ensures Tame(old(view), old(hist), view, hist, KeysUnder(schema, rank, v.stype), Tidy(schema, rank))
      ensures GoesWell(schema, Sturdy(schema), old(view), view, err)
      ensures WellTyped(schema, schema.structs[v.stype], v.fields) && Lasting(old(v.fields), v.fields)
      ensures err.Some? ==> err.value != AlreadyRegistered && err.value != NameEmpty
      ensures err.None? ==> |srcs| == |v.fields| == |schema.structs[v.stype]|
                            && Wired(schema, hist, schema.structs[v.stype], old(v.fields), v.fields, srcs, |old(hist).order|)
                            && |hist.order| == Pos(|old(hist).order|, srcs)
      decreases Height(rank, Pointer(v.stype)), 6
    {
      hide Valid, Filled, Left, WellTyped, Nested, Tame, GoesWell, Grew, Wired, Holding, Lasting, Tidy, Sturdy, FieldDone, Traced, Sound, MadeFor,
           KeysUnder, KeysOfField, KeysOfFields, Descends, Pos, Step;
      srcs := [];
      ghost var s, view0, hist0, objects0, before := v.stype, view, hist, objects, v.fields;
      NoneFilled(rank, s, before);
      for i := 0 to |schema.structs[v.stype]|
        invariant Valid() && fresh(named.ring.Repr - old(named.ring.Repr)) && fresh(objects - old(objects))
        invariant WellTyped(schema, schema.structs[s], v.fields) && fresh(Structs(objects - objects0))
        invariant Filled(schema, rank, s, i, view0, hist0, objects0, before, view, hist, objects, v.fields, srcs)
      {
        ghost var src;
        err, src := FillNext(rank, v, i, noFill, view0, hist0, objects0, before, srcs);
        if err.Some? {
          Leaves(rank, s, view0, hist0, objects0, before, v.fields, err);
          return;
        }
        srcs := srcs + [src];
      }
      err := None;
      AllFilled(rank, s, view0, hist0, objects0, before, v.fields, srcs);
    }

    method FillNext(ghost rank: seq<nat>, v: Instance, i: nat, noFill: bool, ghost view0: View, ghost hist0: History,
                    ghost objects0: set<Object>, ghost before: seq<Value>, ghost srcs: seq<Source>)
      returns (err: Option<Error>, ghost src: Source)
      requires Valid() && Ranked(schema, rank) && v.stype < |schema.structs| && i < |schema.structs[v.stype]|
      requires WellTyped(schema, schema.structs[v.stype], v.fields) && v !in Structs(objects - objects0)
      requires Filled(schema, rank, v.stype, i, view0, hist0, objects0, before, view, hist, objects, v.fields, srcs)
      modifies this`view, this`hist, this`objects, this`events, named, named.ring, named.ring.Repr, v
      ensures Valid() && fresh(named.ring.Repr - old(named.ring.Repr)) && fresh(objects - old(objects)) && old(objects) <= objects
      ensures WellTyped(schema, schema.structs[v.stype], v.fields) && fresh(Structs(objects - objects0) - old(Structs(objects - objects0)))
      ensures err.Some? ==> err.value != AlreadyRegistered && err.value != NameEmpty
      ensures Left(schema, rank, v.stype, view0, hist0, objects0, before, view, hist, objects, v.fields, err)
      ensures err.None? ==> Filled(schema, rank, v.stype, i + 1, view0, hist0, objects0, before, view, hist, objects, v.fields,
                                   srcs + [src])
      decreases Height(rank, Pointer(v.stype)), 5
    {
      hide Valid, Filled, Left, WellTyped, Nested, Tame, GoesWell, Grew, Wired, Holding, Lasting, Tidy, Sturdy, FieldDone, Traced, Sound, MadeFor,
           KeysUnder, KeysOfField, KeysOfFields, Descends, Pos, Step;
      ghost var view1, hist1, objects1, fields1 := view, hist, objects, v.fields;
      Known();
      IsSound();
      IsShaped(schema, v.stype, v.fields);
      err, src := FillField(rank, v, i, noFill);
      if err.None? {
        FieldTraced(schema.structs[v.stype][i], view1, hist1, fields1[i], v.fields[i], src);
      }
      FilledOn(schema, rank, v.stype, i, view0, hist0, objects0, before, view1, hist1, objects1, fields1, srcs,
               view, hist, objects, v.fields, err, src);
    }

    /** What has just been done for a field, in terms of the history alone. */
    lemma FieldTraced(f: Field, view1: View, hist1: History, before: Value, after: Value, src: Source)
      requires Valid() && Sound(schema, view1, hist1) && Grew(view1, hist1, view, hist)
      requires FieldDone(schema, hist.births, f, before, after, src)
      requires src.From? ==>
                 && src.dep in hist.order
                 && match Lookup(schema, view1, f)
                    case Some(e) => src.dep == e && hist == hist1
                    case None => MadeFor(schema, hist, f, src.dep, |hist1.order|) && src.dep == hist.order[|hist.order| - 1]
      requires src.Absent? ==> Lookup(schema, view1, f) == None
      requires !src.From? ==> hist == hist1
      ensures Traced(schema, hist, f, |hist1.order|, src) && |hist.order| == Step(|hist1.order|, src)
    {
      hide Mirrors, Alive, Borns, Spells, Topological, Listed, Unique, KeysOf, Look, Lookup, ViewOf, ClashOf, MadeFor;
      assert hist.order[..|hist1.order|] == hist1.order;
      ViewSame(schema, hist1.births, hist.births, hist1.order);
    }

    lemma NoneFilled(rank: seq<nat>, s: nat, fields: seq<Value>)
      requires Valid() && Ranked(schema, rank) && s < |rank| && WellTyped(schema, schema.structs[s], fields)
      ensures Filled(schema, rank, s, 0, view, hist, objects, fields, view, hist, objects, fields, [])
      ensures Structs(objects - objects) == {}
    {
      SoundGrew(schema, view, hist);
      LastingSelf(fields);
    }

    lemma Leaves(rank: seq<nat>, s: nat, view0: View, hist0: History, objects0: set<Object>, before: seq<Value>, fields: seq<Value>,
                 err: Option<Error>)
      requires Ranked(schema, rank) && s < |rank|
      requires Left(schema, rank, s, view0, hist0, objects0, before, view, hist, objects, fields, err)
      ensures Grew(view0, hist0, view, hist) && Nested(hist0, hist) && objects0 <= objects && Holding(objects - objects0, hist.births)
      ensures Tame(view0, hist0, view, hist, KeysUnder(schema, rank, s), Tidy(schema, rank))
      ensures GoesWell(schema, Sturdy(schema), view0, view, err) && Lasting(before, fields)
    {
    }

    lemma AllFilled(rank: seq<nat>, s: nat, view0: View, hist0: History, objects0: set<Object>, before: seq<Value>,
                    fields: seq<Value>, srcs: seq<Source>)
      requires Ranked(schema, rank) && s < |rank|
      requires Filled(schema, rank, s, |schema.structs[s]|, view0, hist0, objects0, before, view, hist, objects, fields, srcs)
      ensures Grew(view0, hist0, view, hist) && Nested(hist0, hist) && objects0 <= objects && Holding(objects - objects0, hist.births)
      ensures Tame(view0, hist0, view, hist, KeysUnder(schema, rank, s), Tidy(schema, rank))
      ensures GoesWell(schema, Sturdy(schema), view0, view, None) && Lasting(before, fields)
      ensures |srcs| == |fields| == |schema.structs[s]| == |before| && Wired(schema, hist, schema.structs[s], before, fields, srcs, |hist0.order|)
      ensures |hist.order| == Pos(|hist0.order|, srcs)
    {
    }

    /** The object's own `Start`, which may fail; what it was injected with has started and is in the graph. */
    method Start(o: Object, ghost b: Birth) returns (ok: bool)
      requires Built(schema, hist, o.reflectType, b, |hist.order|) && o.Value == b.value
      modifies `events
      ensures events == old(events) + if ok then [Started(o)] else []
    {
      ok := *;
      if ok {
        events := events + [Started(o)];
      }
    }

    /** `Start`, if it has one, and the insertion of what has started. */
    method Admit(o: Object, ghost b: Birth, singleton: bool) returns (started: bool)
      requires Valid() && o.id == |hist.order| && !o.closed && o.Value == b.value && b.singleton == singleton
      requires Built(schema, hist, o.reflectType, b, o.id)
      modifies this`view, this`hist, this`objects, this`events, named, named.ring, named.ring.Repr
      ensures Valid() && fresh(named.ring.Repr - old(named.ring.Repr))
      ensures objects == old(objects) + if started then {o} else {}
      ensures Grew(old(view), old(hist), view, hist)
      ensures started ==> Look(view, o.Name) == Some(o.AsEntry())
      ensures started && singleton && o.reflectType.Pointer? ==> Look(view, schema.typeName(o.reflectType)) == Some(o.AsEntry())
      ensures started ==> view == InsertedView(schema, old(view), o.AsEntry(), singleton)
      ensures started ==> hist == Recorded(schema, old(view), old(hist), o.AsEntry(), b)
      ensures !started ==> view == old(view) && hist == old(hist) && schema.startable(o.reflectType)
    {
      hide Mirrors, Alive, Sound, Look, InsertedView, Typed, Built, Recorded, Grew;
      NothingGrown();
      started := true;
      if schema.startable(o.reflectType) {
        TraceMore(events, Started(o));
        started := Start(o, b);
      }
      UpsMore(schema, hist.order, o.AsEntry());
      if started {
        InsertedLook(schema, view, o.AsEntry(), singleton, schema.typeName(o.reflectType));
        Insert(o, b, singleton);
      }
    }

    lemma NothingGrown()
      requires Valid()
      ensures Grew(view, hist, view, hist)
    {
      SoundGrew(schema, view, hist);
    }

    /** The value of the new object: a filled struct, or the given value. */
    method Build(ghost rank: seq<nat>, t: Type, value: Value, singleton: bool, noFill: bool) returns (r: Result<Value, Error>, ghost b: Birth)
      requires Valid() && Ranked(schema, rank) && Proper(schema, t, value)
      modifies this`view, this`hist, this`objects, this`events, named, named.ring, named.ring.Repr, Target(value)
      ensures Valid() && fresh(named.ring.Repr - old(named.ring.Repr)) && fresh(objects - old(objects))
      ensures old(objects) <= objects && Holding(objects - old(objects), hist.births)
      ensures fresh(Structs(objects - old(objects)))
      ensures Grew(old(view), old(hist), view, hist) && Nested(old(hist), hist)
      ensures Tame(old(view), old(hist), view, hist, Under(schema, rank, t), Tidy(schema, rank))
      ensures GoesWell(schema, Sturdy(schema) && (t.Pointer? || !value.Nil?), old(view), view, ErrorOf(r))
      ensures Proper(schema, t, value) && (value.Ref? ==> Lasting(old(value.p.fields), value.p.fields))
      ensures r.Err? ==> r.error != AlreadyRegistered && r.error != NameEmpty
      ensures !t.Pointer? ==> r == if value.Nil? then Err(NilValue) else Ok(value)
      ensures r.Ok? ==> (value.Ref? ==> r.value == value) && (value.Nil? ==> r.value.Ref? && fresh(r.value.p))
      ensures r.Ok? ==> Built(schema, hist, t, b, |hist.order|) && b.value == r.value && IsBirth(b, value, singleton, noFill, |old(hist).order|)
      ensures r.Ok? && value.Ref? ==> b.before == old(value.p.fields)
      ensures r.Ok? && r.value.Ref? ==> b.after == r.value.p.fields && fresh(Target(r.value) - Target(value))
      decreases Height(rank, t), 7
    {
      hide Valid, Look, Fits, Sturdy, CanFail, Fitting, Wired, WellTyped, Holding, Built, Grew, Nested, Tame, Tidy, Lasting, Pos, Structs;
      NothingDone(Under(schema, rank, t), Tidy(schema, rank), value);
      b := Birth(value, value, singleton, noFill, |hist.order|, [], [], []);
      if !t.Pointer? {
        if value.Nil? {
          return Err(NilValue), b;
        }
        GivenIsBuilt(schema, hist, t, b);
        return Ok(value), b;
      }
      var v: Instance;
      if value.Nil? {
        v := new Instance(t.s, NewFields(schema, t.s));
      } else {
        v := value.p;
      }
      ghost var before, srcs := v.fields, [];
      IsShaped(schema, t.s, before);
      if value.Nil? || !noFill {
        var err;
        err, srcs := Fill(rank, v, noFill);
        if err.Some? {
          return Err(err.value), b;
        }
      }
      r, b := Ok(Ref(v)), Birth(Ref(v), value, singleton, noFill, |old(hist).order|, before, v.fields, srcs);
      StructIsBuilt(schema, hist, t, b, |hist.order|);
    }

    /** The end of `register`, once the value is made: its object starts and goes into the graph. */
    method Enter(ghost view0: View, ghost hist0: History, name: string, t: Type, value: Value, ghost b: Birth,
                 singleton: bool, ghost under: set<string>, ghost tidy: bool, ghost sturdy: bool)
      returns (started: bool, ghost e: Entry, ghost made: set<Object>)
      requires Valid() && Grew(view0, hist0, view, hist) && Nested(hist0, hist)
      requires Built(schema, hist, t, b, |hist.order|) && b.value == value && b.singleton == singleton && b.began == |hist0.order|
      requires Tame(view0, hist0, view, hist, under, tidy) && Look(view0, name) == None
      requires GoesWell(schema, sturdy, view0, view, None)
      modifies this`view, this`hist, this`objects, this`events, named, named.ring, named.ring.Repr
      ensures Valid() && fresh(named.ring.Repr - old(named.ring.Repr))
      ensures objects == old(objects) + made && fresh(made) && (!started ==> made == {} && schema.startable(t))
      ensures forall o <- made :: o.Value == value && o.AsEntry() == e
      ensures Grew(old(view), old(hist), view, hist) && e == Entry(|old(hist).order|, name, t)
      ensures Settled(schema, view0, hist0, view, hist, started, e, b, under, tidy, sturdy)
    {
      hide *;
      IsSound();
      e := Entry(|hist.order|, name, t);
      Settles(schema, view0, hist0, view, hist, e, b, under, tidy, sturdy);
      var o := new Object(name, t, value, |hist.order|);
      started := Admit(o, b, singleton);
      made := if started then {o} else {};
    }

    /** The object enters and what holds of the objects so far goes on to hold. */
    method EnterHolding(ghost view0: View, ghost hist0: History, ghost objects0: set<Object>, name: string, t: Type, value: Value,
                        ghost b: Birth, singleton: bool, ghost under: set<string>, ghost tidy: bool, ghost sturdy: bool)
      returns (started: bool, ghost e: Entry)
      requires Valid() && Grew(view0, hist0, view, hist) && Nested(hist0, hist)
      requires Built(schema, hist, t, b, |hist.order|) && b.value == value && b.singleton == singleton && b.began == |hist0.order|
      requires Tame(view0, hist0, view, hist, under, tidy) && Look(view0, name) == None
      requires GoesWell(schema, sturdy, view0, view, None)
      requires objects0 <= objects && Holding(objects - objects0, hist.births) && (value.Ref? ==> b.after == value.p.fields)
      modifies this`view, this`hist, this`objects, this`events, named, named.ring, named.ring.Repr
      ensures Valid() && fresh(named.ring.Repr - old(named.ring.Repr))
      ensures old(objects) <= objects && fresh(objects - old(objects)) && Holding(objects - objects0, hist.births)
      ensures Structs(objects - objects0) <= old(Structs(objects - objects0)) + Target(value)
      ensures e == Entry(|old(hist).order|, name, t) && (!started ==> schema.startable(t))
      ensures Settled(schema, view0, hist0, view, hist, started, e, b, under, tidy, sturdy)
    {
      hide Valid, Grew, Nested, Built, Tame, Look, GoesWell, Settled;
      Known();
      ghost var view1, hist1, objects1 := view, hist, objects;
      ghost var made;
      started, e, made := Enter(view0, hist0, name, t, value, b, singleton, under, tidy, sturdy);
      forall o <- objects1 - objects0 | o.Value.Ref?
        ensures o.AsEntry() in hist1.births && o.Value.p.fields == hist1.births[o.AsEntry()].after
      {
        assert o.Value == old(o.Value);
        assert o.Value.p in old(Structs(objects - objects0));
        assert o.Value.p.fields == old(o.Value.p.fields);
      }
      assert Structs(objects1 - objects0) == old(Structs(objects - objects0));
      if started {
        SettledBirth(schema, view0, hist0, view, hist, e, b, under, tidy, sturdy);
      }
      EnteredHolds(objects0, objects1, made, view1, hist1, b, e);
    }

    /** `register`, once the name is known to be free. */
    method RegisterFree(ghost rank: seq<nat>, name: string, t: Type, value: Value, singleton: bool, noFill: bool)
      returns (r: Result<Value, Error>, ghost e: Entry, ghost b: Birth)
      requires Valid() && Ranked(schema, rank) && Proper(schema, t, value) && Look(view, name) == None
      modifies this`view, this`hist, this`objects, this`events, named, named.ring, named.ring.Repr, Target(value)
      ensures Valid() && fresh(named.ring.Repr - old(named.ring.Repr)) && fresh(objects - old(objects))
      ensures old(objects) <= objects && Holding(objects - old(objects), hist.births)
      ensures fresh(Structs(objects - old(objects)) - Target(value))
      ensures Grew(old(view), old(hist), view, hist) && (r.Err? ==> Nested(old(hist), hist))
      ensures r.Err? ==> Tame(old(view), old(hist), view, hist, Under(schema, rank, t), Tidy(schema, rank))
      ensures r.Err? ==> GoesWell(schema, Sturdy(schema) && (t.Pointer? || !value.Nil?), old(view), view, Some(r.error))
      ensures r.Ok? ==> Tame(old(view), old(hist), view, hist, Under(schema, rank, t) + OwnKeys(schema, name, t, singleton),
                             Tidy(schema, rank) && Unclaimed(schema, old(view), Under(schema, rank, t), name, t, singleton))
      ensures r.Ok? ==> GoesWell(schema, Sturdy(schema) && (t.Pointer? || !value.Nil?) && Welcome(schema, name, t, singleton),
                                 old(view), view, None)
      ensures Proper(schema, t, value) && (value.Ref? ==> Lasting(old(value.p.fields), value.p.fields))
      ensures r.Err? ==> r.error != AlreadyRegistered && r.error != NameEmpty
      ensures !t.Pointer? ==> if value.Nil? then r == Err(NilValue) else r == Ok(value) || (r == Err(StartFailed) && schema.startable(t))
      ensures r.Ok? ==> (value.Ref? ==> r.value == value) && (value.Nil? ==> r.value.Ref? && fresh(r.value.p))
      ensures r.Ok? ==> Entered(schema, old(hist), view, hist, name, t, b, e)
      ensures r.Ok? ==> b.value == r.value && IsBirth(b, value, singleton, noFill, |old(hist).order|)
      ensures r.Ok? && value.Ref? ==> b.before == old(value.p.fields)
      ensures r.Ok? && r.value.Ref? ==> b.after == r.value.p.fields && fresh(Target(r.value) - Target(value))
      decreases Height(rank, t), 8
    {
      hide Mirrors, Alive, Spells, Put, Look, Unique, KeysOf, Topological, Listed, Replaces, InsertReplaces, InsertedView, Borns,
           Wired, Traced, Pos, Sound, Descends, Lookup, KeysUnder, KeysOfFields, TidyField, Tidy, Built, Entered, Lasting,
           Fits, Suits, Sturdy, CanFail, Welcome, WellTyped, Made, DepsOf, Grew, Nested, Tame, GoesWell, Under, OwnKeys, Numbered, Unclaimed,
           Holding;
      r, b := Build(rank, t, value, singleton, noFill);
      e := Entry(0, name, t);
      if r.Err? {
        return;
      }
      var started;
      started, e := EnterHolding(old(view), old(hist), old(objects), name, t, r.value, b, singleton,
                                 Under(schema, rank, t), Tidy(schema, rank), Sturdy(schema) && (t.Pointer? || !value.Nil?));
      if !started {
        r := Err(StartFailed);
      }
    }

    /**
     `register`. A refused registration leaves nothing of its own behind, only dependencies that were registered and
     started on the way; a successful one starts the object after everything it was injected with.
     */
    method Register(ghost rank: seq<nat>, name0: string, t: Type, value: Value, singleton: bool, noFill: bool)
      returns (r: Result<Value, Error>, ghost e: Entry, ghost b: Birth)
      requires Valid() && Ranked(schema, rank) && Proper(schema, t, value)
      modifies this`view, this`hist, this`objects, this`events, named, named.ring, named.ring.Repr, Target(value)
      ensures Valid() && fresh(named.ring.Repr - old(named.ring.Repr)) && fresh(objects - old(objects))
      ensures old(objects) <= objects && Holding(objects - old(objects), hist.births)
      ensures fresh(Structs(objects - old(objects)) - Target(value))
      ensures Grew(old(view), old(hist), view, hist) && (r.Err? ==> Nested(old(hist), hist))
      ensures r.Err? ==> Tame(old(view), old(hist), view, hist, Under(schema, rank, t), Tidy(schema, rank))
      ensures r.Ok? ==> var name, under := NameOf(schema, name0, t), Under(schema, rank, t);
                        Tame(old(view), old(hist), view, hist, under + OwnKeys(schema, name, t, singleton),
                             Tidy(schema, rank) && Unclaimed(schema, old(view), under, name, t, singleton))
      ensures r.Err? && r.error !in {NameEmpty, AlreadyRegistered}
              ==> GoesWell(schema, Sturdy(schema) && (t.Pointer? || !value.Nil?), old(view), view, Some(r.error))
      ensures r.Ok? ==> GoesWell(schema, Sturdy(schema) && (t.Pointer? || !value.Nil?)
                                         && Welcome(schema, NameOf(schema, name0, t), t, singleton), old(view), view, None)
      ensures Proper(schema, t, value) && (value.Ref? ==> Lasting(old(value.p.fields), value.p.fields))
      ensures r == Err(NameEmpty) <==> name0 == "" && !t.Pointer?
      ensures r == Err(AlreadyRegistered) <==> (name0 != "" || t.Pointer?) && Look(old(view), NameOf(schema, name0, t)) != None
      ensures r in {Err(NameEmpty), Err(AlreadyRegistered)} ==> view == old(view) && hist == old(hist)
      ensures r.Err? && r.error !in {NameEmpty, AlreadyRegistered} && NameOf(schema, name0, t) !in Under(schema, rank, t)
              ==> Look(view, NameOf(schema, name0, t)) == None
      ensures r.Ok? ==> Entered(schema, old(hist), view, hist, NameOf(schema, name0, t), t, b, e)
      ensures r.Ok? ==> Look(view, if name0 == "" then schema.typeName(t) else name0) == Some(e)
      ensures r.Ok? ==> HoldsFound(schema, hist.births, t, b)
      ensures !t.Pointer? && name0 != "" && Look(old(view), name0) == None ==>
                if value.Nil? then r == Err(NilValue) else r == Ok(value) || (r == Err(StartFailed) && schema.startable(t))
      ensures r.Ok? ==> (value.Ref? ==> r.value == value) && (value.Nil? ==> r.value.Ref? && fresh(r.value.p))
      ensures r.Ok? ==> b.value == r.value && IsBirth(b, value, singleton, noFill, |old(hist).order|)
      ensures r.Ok? && value.Ref? ==> b.before == old(value.p.fields)
      ensures r.Ok? && r.value.Ref? ==> b.after == r.value.p.fields && fresh(Target(r.value) - Target(value))
      decreases Height(rank, t), 9
    {
      hide Mirrors, Alive, Sound, Look, Built, Descends, Ranked, Tidy, Sturdy, CanFail, Welcome, WellTyped, Typed, Holding,
           Grew, Nested, NestedBut, Tame, GoesWell, Lasting, Under, OwnKeys, Unclaimed, Numbered, Backed, HoldsFound;
      var name := NameOf(schema, name0, t);
      e, b := Entry(0, name, t), Birth(value, value, singleton, noFill, 0, [], [], []);
      if name0 == "" && !t.Pointer? {
        NothingDone(Under(schema, rank, t), Tidy(schema, rank), value);
        return Err(NameEmpty), e, b;
      }
      var found := Find(name);
      if found.Some? {
        NothingDone(Under(schema, rank, t), Tidy(schema, rank), value);
        return Err(AlreadyRegistered), e, b;
      }
      r, e, b := RegisterFree(rank, name, t, value, singleton, noFill);
      if r.Err? && name !in Under(schema, rank, t) {
        StillAbsent(old(view), old(hist), view, hist, Under(schema, rank, t), Tidy(schema, rank), name);
      }
      if r.Ok? {
        BuiltHolds(schema, hist, t, b, e.id);
      }
    }

    /** A refusal leaves everything as it was. */
    lemma NothingDone(added: set<string>, tidy: bool, value: Value)
      requires Valid()
      ensures Grew(view, hist, view, hist) && Nested(hist, hist) && Tame(view, hist, view, hist, added, tidy)
      ensures Holding(objects - objects, hist.births) && Structs(objects - objects) == {}
      ensures value.Ref? ==> Lasting(value.p.fields, value.p.fields)
    {
      SoundGrew(schema, view, hist);
      NoneHold(objects, hist.births);
      if value.Ref? {
        LastingSelf(value.p.fields);
      }
    }

    lemma NoneHold(objs: set<Object>, births: map<Entry, Birth>)
      ensures Holding(objs - objs, births) && Structs(objs - objs) == {}
    {
    }

    /** What was there holds, and so does the newest object, if it started. */
    lemma EnteredHolds(objs0: set<Object>, objs1: set<Object>, made: set<Object>, view1: View, hist1: History, b: Birth, e: Entry)
      requires objs0 <= objs1 && objects == objs1 + made && made !! objs1 && Grew(view1, hist1, view, hist)
      requires Holding(objs1 - objs0, hist1.births) && forall o <- objs1 :: o.AsEntry() in hist1.order
      requires forall o <- made :: o.Value == b.value && o.AsEntry() == e
      requires made != {} ==> e in hist.births && hist.births[e] == b
      requires b.value.Ref? ==> b.after == b.value.p.fields
      ensures Holding(objects - objs0, hist.births) && Structs(objects - objs0) <= Structs(objs1 - objs0) + Target(b.value)
    {
      assert objects - objs1 == made;
      HoldingOn(objs0, objs1, objects, view1, hist1, view, hist);
    }

    /**
     `Close` closes the objects and then deletes every key, some of them several times. The store is empty
     afterwards; the links of the emptied ring are not promised, since a repeated delete may splice stale nodes.
     */
    method Close() returns (ghost closings: seq<Entry>)
      requires Valid()
      modifies `view, `events, named, named.ring, named.ring.Repr, objects`closed
      ensures closings == CloseRun(schema, WalkBack(old(view)), {})
      ensures !hist.clashed ==> closings == LastFirst(schema, hist.order)
      ensures TraceOf(events) == Ups(schema, hist.order) + Downs(closings)
      ensures forall o <- objects :: o.closed <==> o.AsEntry() in closings
      ensures named.Shape() && named.store == map[] && named.View() == [] && view == []
    {
      hide Sound, Unique, KeysOf, CloseRun, LastFirst, Entries, TraceOf, Ups, Downs;
      if !hist.clashed {
        CloseOrder(schema, view, hist);
      }
      var keys;
      keys, closings := CloseObjects();
      DeleteAll(keys);
    }

    /** An object's own `Close`. */
    method CloseObject(o: Object)
      requires !o.closed
      modifies `events, o`closed
      ensures events == old(events) + [Closed(o)] && o.closed
    {
      events, o.closed := events + [Closed(o)], true;
    }

    /** The walk back over the entries. */
    method CloseObjects() returns (keys: seq<string>, ghost closings: seq<Entry>)
      requires Valid()
      modifies `events, objects`closed
      ensures closings == CloseRun(schema, WalkBack(view), {})
      ensures TraceOf(events) == Ups(schema, hist.order) + Downs(closings)
      ensures forall o <- objects :: o.closed <==> o.AsEntry() in closings
      ensures forall k <- named.store.Keys :: k in keys
    {
      hide Sound, Unique, KeysOf, CloseRun, TraceOf, Ups, Downs;
      var kvs := RevIterate(named);
      keys, closings := CloseEach(kvs, WalkBack(view));
      AllWalked(kvs, keys);
    }

    /** The loop of `Close` over the entries `RevIterFunc` yields. */
    method CloseEach(kvs: Pairs<string, Object>, ghost walk: seq<Entry>) returns (keys: seq<string>, ghost closings: seq<Entry>)
      requires Numbered(objects) && |walk| == |kvs| && forall i :: 0 <= i < |kvs| ==> walk[i] == kvs[i].1.AsEntry() && kvs[i].1 in objects
      requires forall o <- objects :: !o.closed
      modifies `events, objects`closed
      ensures closings == CloseRun(schema, walk, {}) && TraceOf(events) == TraceOf(old(events)) + Downs(closings)
      ensures forall o <- objects :: o.closed <==> o.AsEntry() in closings
      ensures forall i :: 0 <= i < |kvs| ==> kvs[i].0 in keys
    {
      hide Numbered, TraceOf, Closing;
      keys, closings := [], [];
      ClosingFirst(schema, walk, TraceOf(events));
      for i := 0 to |kvs|
        invariant forall o <- objects :: o.closed <==> o.AsEntry() in closings
        invariant Closing(schema, walk, i, closings, TraceOf(old(events)), TraceOf(events))
        invariant forall j :: 0 <= j < i ==> kvs[j].0 in keys
      {
        var o := kvs[i].1;
        keys := keys + [kvs[i].0];
        ClosingOn(schema, walk, i, closings, TraceOf(old(events)), TraceOf(events));
        if !o.closed {
          if o.reflectType.Pointer? {
            keys := keys + [schema.typeName(o.reflectType)];
          }
          if schema.closable(o.reflectType) {
            TraceMore(events, Closed(o));
            closings := closings + [walk[i]];
            CloseObject(o);
            SameObject(o);
          }
        }
      }
      ClosingDone(schema, walk, closings, TraceOf(old(events)), TraceOf(events));
    }

    lemma SameObject(o: Object)
      requires Numbered(objects) && o in objects
      ensures forall x <- objects :: x.AsEntry() == o.AsEntry() ==> x == o
    {
    }

    lemma AllWalked(kvs: Pairs<string, Object>, keys: seq<string>)
      requires named.Valid() && kvs == Reverse(named.View()) && forall i :: 0 <= i < |kvs| ==> kvs[i].0 in keys
      ensures forall k <- named.store.Keys :: k in keys
      ensures forall i :: 0 <= i < |named.View()| ==> named.View()[i] == kvs[|kvs| - 1 - i]
    {
      forall k <- named.store.Keys
        ensures k in keys
      {
        var i :| 0 <= i < |named.keys| && named.keys[i] == k;
        assert kvs[|kvs| - 1 - i] == named.View()[i];
      }
    }

    method DeleteAll(keys: seq<string>)
      requires named.Shape() && forall k <- named.store.Keys :: k in keys
      modifies `view, named, named.ring, named.ring.Repr
      ensures named.Shape() && named.store == map[] && named.View() == [] && view == []
    {
      for i := 0 to |keys|
        invariant named.Shape() && named.ring.Repr == old(named.ring.Repr)
        invariant forall k <- named.store.Keys :: k in keys[i..]
      {
        DeleteOne(keys[i]);
      }
      NothingLeft();
      view := [];
    }

    /** `del`. */
    method DeleteOne(key: string)
      requires named.Shape()
      modifies named, named.ring, named.ring.Repr
      ensures named.Shape() && named.ring.Repr == old(named.ring.Repr) && named.store == old(named.store) - {key}
    {
      named.Delete(key);
    }

    lemma NothingLeft()
      requires named.Shape() && named.store.Keys == {}
      ensures named.store == map[] && named.View() == []
    {
      if named.keys != [] {
        FirstIsStored();
      }
    }

    lemma FirstIsStored()
      requires named.Shape() && named.keys != []
      ensures named.keys[0] in named.store.Keys
    {
      assert named.keys[0] in named.keys;
    }
  }
}
