/** The memory runtime: four scoped stores that behave as one map, and the
    expiry of entries with a duration. */
module Memory {
  import opened Reachability
  import opened Options
  import opened Duration

  datatype Scope = NodeScope | SessionScope | ProjectScope | GlobalScope

  datatype Ttl = Permanent | UntilSessionEnds | For(duration: string)

  // A timestamp as nanoseconds, or a text in a loaded file that is no timestamp.
  datatype Stamp = At(ns: int) | Unreadable(text: string)

  datatype Entry = Entry(topic: string, scope: Scope, ttl: Ttl, value: string, createdAt: Stamp, updatedAt: Stamp)

  datatype ActionKind = Get | Upsert | Delete | List | Search

  datatype Action = Action(kind: ActionKind, key: string, topic: string, value: Option<string>,
                           scope: Option<Scope>, ttl: Option<Ttl>)

  datatype MemoryResult = Found(entry: Option<Entry>) | Upserted | Deleted(existed: bool)
                        | Listed(entries: map<string, Entry>) | SearchUnsupported

  type Store = map<string, Entry>

  const MAX_MEMORY_VALUE_BYTES := 32768

  // ----- one flat map -----

  // Entries of the node scope belong to a node; in the other scopes the owner is empty.
  datatype Key = Key(scope: Scope, owner: Id, key: string)

  type Flat = map<Key, Entry>

  function Utf8Length(c: char): nat {
    if c as int < 0x80 then 1 else if c as int < 0x800 then 2 else if c as int < 0x10000 then 3 else 4
  }

  function ByteLength(s: string): nat {
    if s == "" then 0 else ByteLength(s[..|s| - 1]) + Utf8Length(s[|s| - 1])
  }

  function ScopeOf(a: Action): Scope {
    if a.scope.Some? then a.scope.value else SessionScope
  }

  function TtlOf(a: Action): Ttl {
    if a.ttl.Some? then a.ttl.value else UntilSessionEnds
  }

  function ValueOf(a: Action): string {
    if a.value.Some? then a.value.value else ""
  }

  function KeyOf(node: Id, a: Action): Key {
    Key(ScopeOf(a), OwnerIn(ScopeOf(a), node), a.key)
  }

  predicate Oversized(a: Action) {
    a.kind.Upsert? && ByteLength(ValueOf(a)) > MAX_MEMORY_VALUE_BYTES
  }

  /** Which entry an action is about, and what it writes: without a scope it is the session's, and
      without a lifetime it lasts as long as the session. */
  lemma ActionExact(node: Id, a: Action)
    ensures KeyOf(node, a) == match a.scope
                              case None => Key(SessionScope, "", a.key)
                              case Some(NodeScope) => Key(NodeScope, node, a.key)
                              case Some(scope) => Key(scope, "", a.key)
    ensures a.scope == Some(KeyOf(node, a).scope) || (a.scope == None && KeyOf(node, a).scope == SessionScope)
    ensures ScopeOf(a) == KeyOf(node, a).scope
    ensures a.ttl == Some(TtlOf(a)) || (a.ttl == None && TtlOf(a) == UntilSessionEnds)
    ensures a.value == Some(ValueOf(a)) || (a.value == None && ValueOf(a) == "")
  {
  }

  /** The scalar values below this take at most `n` bytes. */
  function Capacity(n: nat): nat
    requires 0 < n <= 4
  {
    [0x80, 0x800, 0x10000, 0x110000][n - 1]
  }

  /** A character takes as few bytes as will hold it. */
  lemma Utf8Exact(c: char)
    ensures 0 < Utf8Length(c) <= 4 && (c as int) < Capacity(Utf8Length(c))
    ensures Utf8Length(c) > 1 ==> (c as int) >= Capacity(Utf8Length(c) - 1)
  {
  }

  lemma {:induction false} ByteLengthConcat(a: string, b: string)
    ensures ByteLength(a + b) == ByteLength(a) + ByteLength(b)
    ensures forall c :: ByteLength([c]) == Utf8Length(c)
  {
    if b == "" {
      assert a + b == a;
    } else {
      ByteLengthConcat(a, b[..|b| - 1]);
      assert (a + b)[..|a + b| - 1] == a + b[..|b| - 1];
    }
    forall c ensures ByteLength([c]) == Utf8Length(c) {
      assert [c][..0] == "";
    }
  }

  lemma {:induction false} AsciiLength(s: string)
    requires forall i :: 0 <= i < |s| ==> (s[i] as int) < 0x80
    ensures ByteLength(s) == |s|
  {
    if s != "" {
      AsciiLength(s[..|s| - 1]);
    }
  }

  /** A write of plain text is refused exactly if it is longer than 32 KiB; no other action is. */
  lemma OversizedExact(a: Action)
    requires a.value.Some? ==> forall i :: 0 <= i < |a.value.value| ==> (a.value.value[i] as int) < 0x80
    ensures Oversized(a) <==> a.kind.Upsert? && a.value.Some? && |a.value.value| > 32 * 1024
  {
    if a.value.Some? { AsciiLength(a.value.value); }
  }

  datatype Op = Act(node: Id, action: Action) | ClearNode(node: Id) | ClearSession | Expire

  datatype Event = Event(op: Op, now: int)

  /** The event writes this entry. */
  predicate Writes(e: Event, k: Key) {
    e.op.Act? && e.op.action.kind.Upsert? && !Oversized(e.op.action) && KeyOf(e.op.node, e.op.action) == k
  }

  function Written(m: Flat, k: Key, a: Action, now: int): Entry {
    Entry(a.topic, ScopeOf(a), TtlOf(a), ValueOf(a), if k in m then m[k].createdAt else At(now), At(now))
  }

  function Apply(m: Flat, e: Event): Flat {
    match e.op
    case Act(node, a) =>
      var k := KeyOf(node, a);
      if a.kind.Upsert? && !Oversized(a) then m[k := Written(m, k, a, e.now)]
      else if a.kind.Delete? then Drop(m, k)
      else m
    case ClearNode(node) => map k | k in m && !(k.scope.NodeScope? && k.owner == node) :: m[k]
    case ClearSession => map k | k in m && !k.scope.SessionScope? :: m[k]
    case Expire => map k | k in m && !Expired(m[k], e.now) :: m[k]
  }

  function ResultOf(m: Flat, node: Id, a: Action): MemoryResult {
    var k := KeyOf(node, a);
    match a.kind
    case Get => Found(if k in m then Some(m[k]) else None)
    case Upsert => Upserted
    case Delete => Deleted(k in m)
    case List => Listed(Listing(m, k.scope, k.owner, a.topic))
    case Search => SearchUnsupported
  }

  /** The entries of one store that match a topic, by key. */
  function Listing(m: Flat, scope: Scope, owner: Id, topic: string): map<string, Entry> {
    map j | j in (set k | k in m :: k.key) && Key(scope, owner, j) in m && Matches(topic, m[Key(scope, owner, j)])
      :: m[Key(scope, owner, j)]
  }

  predicate Matches(topic: string, e: Entry) {
    topic == "" || e.topic == topic
  }

  // ----- expiry -----

  const NANOS := 1_000_000_000

  /** Whole seconds of a span, cut off toward zero. */
  function WholeSeconds(ns: int): int {
    if ns >= 0 then ns / NANOS else -((-ns) / NANOS)
  }

  predicate Expired(e: Entry, now: int) {
    && e.ttl.For? && ParseDuration(e.ttl.duration).Some? && e.updatedAt.At?
    && WholeSeconds(now - e.updatedAt.ns) >= 0
    && WholeSeconds(now - e.updatedAt.ns) >= ParseDuration(e.ttl.duration).value
  }

  /** An entry with a duration expires once that has passed since its last update; one of zero
      length is already expired up to a second before that. Nothing else ever expires: no entry
      without a duration, with one that cannot be read, or without a readable time of update. */
  lemma ExpiredExact(e: Entry, now: int)
    ensures Expired(e, now) <==>
            && e.ttl.For? && ParseDuration(e.ttl.duration).Some? && e.updatedAt.At?
            && var secs := ParseDuration(e.ttl.duration).value;
               if secs > 0 then now - e.updatedAt.ns >= secs * 1_000_000_000 else now - e.updatedAt.ns > -1_000_000_000
  {
    if e.ttl.For? && ParseDuration(e.ttl.duration).Some? && e.updatedAt.At? {
      WholeSecondsBound(now - e.updatedAt.ns, ParseDuration(e.ttl.duration).value);
    }
  }

  lemma WholeSecondsBound(ns: int, secs: nat)
    ensures secs > 0 ==> (WholeSeconds(ns) >= secs <==> ns >= secs * NANOS)
    ensures WholeSeconds(ns) >= 0 <==> ns > -NANOS
  {
  }

  lemma ExpiredMonotone(e: Entry, now: int, later: int)
    requires Expired(e, now) && now <= later
    ensures Expired(e, later)
  {
    ExpiredExact(e, now);
    ExpiredExact(e, later);
  }

  // ----- the stores -----

  datatype Stores = Stores(node: map<Id, Store>, session: Store, project: Store, global: Store)

  function StoreOf(s: Stores, scope: Scope, owner: Id): Store {
    match scope
    case NodeScope => if owner in s.node then s.node[owner] else map[]
    case SessionScope => s.session
    case ProjectScope => s.project
    case GlobalScope => s.global
  }

  function Lookup(s: Stores, k: Key): Option<Entry> {
    var store := StoreOf(s, k.scope, k.owner);
    if (k.scope.NodeScope? || k.owner == "") && k.key in store then Some(store[k.key]) else None
  }

  ghost predicate Agrees(s: Stores, m: Flat, k: Key) {
    Lookup(s, k) == if k in m then Some(m[k]) else None
  }

  /** The four stores hold exactly the entries of the map. */
  ghost predicate Represents(s: Stores, m: Flat) {
    forall k :: Agrees(s, m, k)
  }

  /** The stores with one of them replaced. */
  function Put(s: Stores, scope: Scope, owner: Id, store: Store): Stores {
    match scope
    case NodeScope => s.(node := s.node[owner := store])
    case SessionScope => s.(session := store)
    case ProjectScope => s.(project := store)
    case GlobalScope => s.(global := store)
  }

  function OwnerIn(scope: Scope, owner: Id): Id {
    if scope.NodeScope? then owner else ""
  }

  lemma PutLookup(s: Stores, scope: Scope, owner: Id, store: Store, k: Key)
    ensures Lookup(Put(s, scope, owner, store), k) ==
            if k.scope == scope && k.owner == OwnerIn(scope, owner)
            then (if k.key in store then Some(store[k.key]) else None) else Lookup(s, k)
  {
  }

  lemma PutUpsert(s: Stores, m: Flat, scope: Scope, owner: Id, key: string, e: Entry)
    requires Represents(s, m)
    ensures Represents(Put(s, scope, owner, StoreOf(s, scope, owner)[key := e]),
                       m[Key(scope, OwnerIn(scope, owner), key) := e])
  {
    var store := StoreOf(s, scope, owner)[key := e];
    var t, n := Put(s, scope, owner, store), m[Key(scope, OwnerIn(scope, owner), key) := e];
    forall k ensures Agrees(t, n, k) {
      assert Agrees(s, m, k);
      PutLookup(s, scope, owner, store, k);
    }
  }

  function Drop(m: Flat, gone: Key): Flat {
    map j | j in m && j != gone :: m[j]
  }

  lemma PutDelete(s: Stores, m: Flat, scope: Scope, owner: Id, key: string)
    requires Represents(s, m)
    ensures Represents(Put(s, scope, owner, StoreOf(s, scope, owner) - {key}),
                       Drop(m, Key(scope, OwnerIn(scope, owner), key)))
  {
    var store := StoreOf(s, scope, owner) - {key};
    var t, n := Put(s, scope, owner, store), Drop(m, Key(scope, OwnerIn(scope, owner), key));
    forall k ensures Agrees(t, n, k) {
      assert Agrees(s, m, k);
      PutLookup(s, scope, owner, store, k);
    }
  }

  // ----- counting -----

  function StoreKeys(scope: Scope, owner: Id, names: set<string>): set<Key> {
    set k | k in names :: Key(scope, owner, k)
  }

  lemma {:induction false} StoreKeysSize(scope: Scope, owner: Id, names: set<string>)
    ensures |StoreKeys(scope, owner, names)| == |names|
    decreases |names|
  {
    if names != {} {
      var k :| k in names;
      StoreKeysSize(scope, owner, names - {k});
      assert StoreKeys(scope, owner, names) == StoreKeys(scope, owner, names - {k}) + {Key(scope, owner, k)};
    }
  }

  function NodeKeys(stores: map<Id, Store>): set<Key> {
    set x, k | x in stores && k in stores[x] :: Key(NodeScope, x, k)
  }

  lemma NodeKeysSplit(stores: map<Id, Store>, rest: map<Id, Store>, x: Id)
    requires x in stores && rest == stores - {x}
    ensures |NodeKeys(stores)| == |NodeKeys(rest)| + |stores[x]|
  {
    var own := StoreKeys(NodeScope, x, stores[x].Keys);
    assert NodeKeys(stores) == NodeKeys(rest) + own;
    assert NodeKeys(rest) !! own;
    StoreKeysSize(NodeScope, x, stores[x].Keys);
    assert |stores[x]| == |stores[x].Keys|;
  }

  /** Replacing one node's store changes the size by the difference of the stores. */
  lemma NodeKeysReplace(stores: map<Id, Store>, x: Id, store: Store)
    requires x in stores
    ensures |NodeKeys(stores[x := store])| + |stores[x]| == |NodeKeys(stores)| + |store|
  {
    var rest := stores - {x};
    NodeKeysSplit(stores, rest, x);
    assert stores[x := store] - {x} == rest;
    NodeKeysSplit(stores[x := store], rest, x);
  }

  lemma RepresentsKeys(s: Stores, m: Flat)
    requires Represents(s, m)
    ensures m.Keys == NodeKeys(s.node) + StoreKeys(SessionScope, "", s.session.Keys)
                      + StoreKeys(ProjectScope, "", s.project.Keys) + StoreKeys(GlobalScope, "", s.global.Keys)
  {
    forall k ensures k in m <==> Lookup(s, k).Some? {
      assert Agrees(s, m, k);
    }
  }

  lemma RepresentsSize(s: Stores, m: Flat)
    requires Represents(s, m)
    ensures |m| == |NodeKeys(s.node)| + |s.session| + |s.project| + |s.global|
  {
    var a, b := NodeKeys(s.node), StoreKeys(SessionScope, "", s.session.Keys);
    var c, d := StoreKeys(ProjectScope, "", s.project.Keys), StoreKeys(GlobalScope, "", s.global.Keys);
    RepresentsKeys(s, m);
    StoreKeysSize(SessionScope, "", s.session.Keys);
    StoreKeysSize(ProjectScope, "", s.project.Keys);
    StoreKeysSize(GlobalScope, "", s.global.Keys);
    FourSizes(a, b, c, d);
    assert |m| == |m.Keys| == |a + b + c + d|;
    assert |s.session| == |s.session.Keys| && |s.project| == |s.project.Keys| && |s.global| == |s.global.Keys|;
  }

  lemma FourSizes(a: set<Key>, b: set<Key>, c: set<Key>, d: set<Key>)
    requires (forall k :: k in a ==> k.scope.NodeScope?) && (forall k :: k in b ==> k.scope.SessionScope?)
    requires (forall k :: k in c ==> k.scope.ProjectScope?) && (forall k :: k in d ==> k.scope.GlobalScope?)
    ensures |a + b + c + d| == |a| + |b| + |c| + |d|
  {
    assert a !! b && (a + b) !! c && (a + b + c) !! d;
  }

  // ----- the runtime -----

  function Unexpired(store: Store, now: int): Store {
    map k | k in store && !Expired(store[k], now) :: store[k]
  }

  class MemoryRuntime {
    var nodeStore: map<Id, Store>
    var sessionStore: Store
    var projectStore: Store
    var globalStore: Store
    // What the four stores hold, as one map.
    ghost var contents: Flat

    function All(): Stores
      reads this
    {
      Stores(nodeStore, sessionStore, projectStore, globalStore)
    }

    ghost predicate Valid()
      reads this
    {
      Represents(All(), contents)
    }

    constructor (project: Store, global: Store)
      ensures Valid()
      ensures contents.Keys == StoreKeys(ProjectScope, "", project.Keys) + StoreKeys(GlobalScope, "", global.Keys)
      ensures forall k :: k in project ==> contents[Key(ProjectScope, "", k)] == project[k]
      ensures forall k :: k in global ==> contents[Key(GlobalScope, "", k)] == global[k]
    {
      nodeStore, sessionStore, projectStore, globalStore := map[], map[], project, global;
      contents := map k | k in StoreKeys(ProjectScope, "", project.Keys) + StoreKeys(GlobalScope, "", global.Keys)
                    :: if k.scope.ProjectScope? then project[k.key] else global[k.key];
      new;
      assert forall k :: Agrees(All(), contents, k);
    }

    method DoUpsert(node: Id, a: Action, now: int)
      requires Valid() && a.kind.Upsert? && !Oversized(a)
      modifies this
      ensures Valid() && contents == Apply(old(contents), Event(Act(node, a), now))
    {
      ghost var s := All();
      var scope := ScopeOf(a);
      ghost var k := KeyOf(node, a);
      ghost var e := Written(contents, k, a, now);
      assert Agrees(s, contents, k);
      PutUpsert(s, contents, scope, node, a.key, e);
      var store := StoreOf(All(), scope, node);
      var createdAt := if a.key in store then store[a.key].createdAt else At(now);
      var updated := store[a.key := Entry(a.topic, scope, TtlOf(a), ValueOf(a), createdAt, At(now))];
      match scope {
        case NodeScope => nodeStore := nodeStore[node := updated];
        case SessionScope => sessionStore := updated;
        case ProjectScope => projectStore := updated;
        case GlobalScope => globalStore := updated;
      }
      contents := contents[k := e];
      assert All() == Put(s, scope, node, StoreOf(s, scope, node)[a.key := e]);
    }

    method DoDelete(node: Id, a: Action, ghost now: int) returns (existed: bool)
      requires Valid() && a.kind.Delete?
      modifies this
      ensures Valid() && contents == Apply(old(contents), Event(Act(node, a), now))
      ensures existed <==> KeyOf(node, a) in old(contents)
    {
      ghost var s := All();
      var scope := ScopeOf(a);
      ghost var k := KeyOf(node, a);
      assert Agrees(s, contents, k);
      PutDelete(s, contents, scope, node, a.key);
      existed := a.key in StoreOf(All(), scope, node);
      contents := Drop(contents, k);
      if !existed {
        assert contents == old(contents);
        return;
      }
      match scope {
        case NodeScope => nodeStore := nodeStore[node := nodeStore[node] - {a.key}];
        case SessionScope => sessionStore := sessionStore - {a.key};
        case ProjectScope => projectStore := projectStore - {a.key};
        case GlobalScope => globalStore := globalStore - {a.key};
      }
      assert All() == Put(s, scope, node, StoreOf(s, scope, node) - {a.key});
    }

    /** Runs one action; None is the refusal of an oversized value. */
    method ExecuteAction(node: Id, a: Action, now: int) returns (r: Option<MemoryResult>)
      requires Valid()
      modifies this
      ensures Valid() && contents == Apply(old(contents), Event(Act(node, a), now))
      ensures r == if Oversized(a) then None else Some(ResultOf(old(contents), node, a))
    {
      assert Agrees(All(), contents, KeyOf(node, a));
      var store := StoreOf(All(), ScopeOf(a), node);
      match a.kind {
        case Get => r := Some(Found(if a.key in store then Some(store[a.key]) else None));
        case Upsert =>
          if Oversized(a) {
            return None;
          }
          DoUpsert(node, a, now);
          r := Some(Upserted);
        case Delete =>
          var existed := DoDelete(node, a, now);
          r := Some(Deleted(existed));
        case List =>
          ListExact(All(), contents, node, a);
          r := Some(Listed(map j | j in store && Matches(a.topic, store[j]) :: store[j]));
        case Search => r := Some(SearchUnsupported);
      }
    }

    method ClearNodeScope(node: Id, ghost now: int)
      requires Valid()
      modifies this
      ensures Valid() && contents == Apply(old(contents), Event(ClearNode(node), now))
    {
      ghost var s, m := All(), contents;
      nodeStore := nodeStore - {node};
      contents := Apply(m, Event(ClearNode(node), now));
      forall k ensures Agrees(All(), contents, k) {
        assert Agrees(s, m, k);
      }
    }

    method ClearSessionScope(ghost now: int)
      requires Valid()
      modifies this
      ensures Valid() && contents == Apply(old(contents), Event(ClearSession, now))
    {
      ghost var s, m := All(), contents;
      sessionStore := map[];
      contents := Apply(m, Event(ClearSession, now));
      forall k ensures Agrees(All(), contents, k) {
        assert Agrees(s, m, k);
      }
    }

    /** Removes what has expired, store by store, and returns how many entries went. */
    method DoExpire(now: int) returns (removed: nat)
      requires Valid()
      modifies this
      ensures Valid() && contents == Apply(old(contents), Event(Expire, now))
      ensures removed == |old(contents)| - |contents|
    {
      ghost var s, m := All(), contents;
      removed := ExpireNodes(now);
      UnexpiredSize(sessionStore, now);
      UnexpiredSize(projectStore, now);
      UnexpiredSize(globalStore, now);
      var session, project := Unexpired(sessionStore, now), Unexpired(projectStore, now);
      var global := Unexpired(globalStore, now);
      removed := removed + (|sessionStore| - |session|) + (|projectStore| - |project|) + (|globalStore| - |global|);
      sessionStore, projectStore, globalStore := session, project, global;
      contents := Apply(m, Event(Expire, now));
      ExpireStores(s, All(), m, now);
      RepresentsSize(s, m);
      RepresentsSize(All(), contents);
    }

    /** One event, whatever it is. */
    method Perform(e: Event)
      requires Valid()
      modifies this
      ensures Valid() && contents == Apply(old(contents), e)
    {
      match e.op {
        case Act(node, action) => var _ := ExecuteAction(node, action, e.now);
        case ClearNode(node) => ClearNodeScope(node, e.now);
        case ClearSession => ClearSessionScope(e.now);
        case Expire => var _ := DoExpire(e.now);
      }
    }

    /** Any history of events: the four stores hold what the one map does. */
    method PerformAll(h: seq<Event>)
      requires Valid()
      modifies this
      ensures Valid() && contents == Replay(old(contents), h)
    {
      for i := 0 to |h|
        invariant Valid() && contents == Replay(old(contents), h[..i])
      {
        assert h[..i + 1][..i] == h[..i];
        Perform(h[i]);
      }
      assert h[..|h|] == h;
    }

    method ExpireNodes(now: int) returns (removed: nat)
      modifies this`nodeStore
      ensures nodeStore == UnexpiredNodes(old(nodeStore), old(nodeStore).Keys, now)
      ensures removed + |NodeKeys(nodeStore)| == |NodeKeys(old(nodeStore))|
    {
      removed := 0;
      ghost var before := nodeStore;
      var rest := nodeStore.Keys;
      while rest != {}
        invariant rest <= before.Keys
        invariant nodeStore == UnexpiredNodes(before, before.Keys - rest, now)
        invariant removed + |NodeKeys(nodeStore)| == |NodeKeys(before)|
        decreases rest
      {
        var x :| x in rest;
        var kept := Unexpired(nodeStore[x], now);
        UnexpiredSize(nodeStore[x], now);
        NodeKeysReplace(nodeStore, x, kept);
        UnexpiredStep(before, before.Keys - rest, x, now);
        assert before.Keys - (rest - {x}) == (before.Keys - rest) + {x};
        rest := rest - {x};
        removed := removed + (|nodeStore[x]| - |kept|);
        nodeStore := nodeStore[x := kept];
      }
    }
  }

  /** The node stores once those of `done` have been cleaned. */
  function UnexpiredNodes(stores: map<Id, Store>, done: set<Id>, now: int): map<Id, Store> {
    map x | x in stores :: if x in done then Unexpired(stores[x], now) else stores[x]
  }

  lemma UnexpiredStep(stores: map<Id, Store>, done: set<Id>, x: Id, now: int)
    requires x in stores && x !in done
    ensures UnexpiredNodes(stores, done, now)[x] == stores[x]
    ensures UnexpiredNodes(stores, done, now)[x := Unexpired(stores[x], now)] == UnexpiredNodes(stores, done + {x}, now)
  {
  }

  lemma ListExact(s: Stores, m: Flat, node: Id, a: Action)
    requires a.kind.List? && Represents(s, m)
    ensures var store := StoreOf(s, ScopeOf(a), node);
            ResultOf(m, node, a) == Listed(map j | j in store && Matches(a.topic, store[j]) :: store[j])
  {
    var store := StoreOf(s, ScopeOf(a), node);
    var k := KeyOf(node, a);
    var listed := Listing(m, k.scope, k.owner, a.topic);
    var target := map j | j in store && Matches(a.topic, store[j]) :: store[j];
    forall j: string ensures (j in listed <==> j in target) && (j in target ==> listed[j] == target[j]) {
      assert Agrees(s, m, Key(k.scope, k.owner, j));
      assert Key(k.scope, k.owner, j) in m ==> Key(k.scope, k.owner, j).key in set i | i in m :: i.key;
    }
    assert listed == target;
  }

  lemma ExpireStores(s: Stores, t: Stores, m: Flat, now: int)
    requires Represents(s, m)
    requires t.node == UnexpiredNodes(s.node, s.node.Keys, now)
    requires t.session == Unexpired(s.session, now) && t.project == Unexpired(s.project, now)
    requires t.global == Unexpired(s.global, now)
    ensures Represents(t, Apply(m, Event(Expire, now)))
  {
    forall k ensures Agrees(t, Apply(m, Event(Expire, now)), k) {
      assert Agrees(s, m, k);
      assert StoreOf(t, k.scope, k.owner) == Unexpired(StoreOf(s, k.scope, k.owner), now);
    }
  }

  lemma UnexpiredSize(store: Store, now: int)
    ensures |Unexpired(store, now)| <= |store|
  {
    SubsetSize(Unexpired(store, now).Keys, store.Keys);
    assert |Unexpired(store, now)| == |Unexpired(store, now).Keys| && |store| == |store.Keys|;
  }

  // ----- histories -----

  function Replay(m: Flat, h: seq<Event>): Flat {
    if h == [] then m else Apply(Replay(m, h[..|h| - 1]), h[|h| - 1])
  }

  /** One event either writes an entry, leaves it as it was, or removes it. */
  lemma ApplyEntry(m: Flat, e: Event, k: Key)
    ensures k in Apply(m, e) && !Writes(e, k) ==> k in m && Apply(m, e)[k] == m[k]
    ensures Writes(e, k) ==> k in Apply(m, e) && Apply(m, e)[k] == Written(m, k, e.op.action, e.now)
  {
  }

  /** An entry present since event `i` put it there, without a break, still has the time of
      that event as its creation time; one that was there from the start keeps its own. */
  lemma {:induction false} CreatedExact(m: Flat, h: seq<Event>, k: Key, i: nat)
    requires i <= |h| && forall j :: i <= j <= |h| ==> k in Replay(m, h[..j])
    requires i == 0 || k !in Replay(m, h[..i - 1])
    ensures k in Replay(m, h)
    ensures i == 0 ==> k in m && Replay(m, h)[k].createdAt == m[k].createdAt
    ensures i > 0 ==> Writes(h[i - 1], k) && Replay(m, h)[k].createdAt == At(h[i - 1].now)
    decreases |h|
  {
    assert h[..|h|] == h;
    if h != [] {
      var front, last := h[..|h| - 1], h[|h| - 1];
      ApplyEntry(Replay(m, front), last, k);
      if i < |h| {
        forall j | i <= j <= |front| ensures k in Replay(m, front[..j]) {
          assert front[..j] == h[..j];
        }
        if i > 0 { assert front[..i - 1] == h[..i - 1]; }
        CreatedExact(m, front, k, i);
      }
    }
  }

  /** The latest write of an entry that is still there determines everything but its creation time. */
  lemma {:induction false} LatestWrite(m: Flat, h: seq<Event>, k: Key, j: nat)
    requires j < |h| && Writes(h[j], k) && k in Replay(m, h)
    requires forall l :: j < l < |h| ==> !Writes(h[l], k)
    ensures var e := Replay(m, h)[k];
            var a := h[j].op.action;
            && e.updatedAt == At(h[j].now) && e.value == ValueOf(a) && e.topic == a.topic
            && e.ttl == TtlOf(a) && e.scope == ScopeOf(a)
    decreases |h|
  {
    var front, last := h[..|h| - 1], h[|h| - 1];
    ApplyEntry(Replay(m, front), last, k);
    if j < |h| - 1 {
      LatestWrite(m, front, k, j);
    }
  }

  /** Expiring removes exactly the expired entries, and a second time at once removes nothing. */
  lemma ExpireExact(m: Flat, now: int, k: Key)
    ensures k in Apply(m, Event(Expire, now)) <==> k in m && !Expired(m[k], now)
    ensures Apply(Apply(m, Event(Expire, now)), Event(Expire, now)) == Apply(m, Event(Expire, now))
  {
  }

  /** An entry that has expired stays expired, or is removed, until it is written again. */
  lemma {:induction false} ExpiredStays(m: Flat, h: seq<Event>, k: Key, now: int, later: int)
    requires k in m && Expired(m[k], now) && now <= later
    requires forall l :: 0 <= l < |h| ==> !Writes(h[l], k)
    ensures k in Replay(m, h) ==> Expired(Replay(m, h)[k], later)
    ensures k !in Apply(Replay(m, h), Event(Expire, later))
    decreases |h|
  {
    if h == [] {
      ExpiredMonotone(m[k], now, later);
    } else {
      var front := h[..|h| - 1];
      ExpiredStays(m, front, k, now, later);
      ApplyEntry(Replay(m, front), h[|h| - 1], k);
    }
  }

  // ----- what is there after a history -----

  /** Has the lifetime of something written `at` with this ttl run out? */
  predicate RunsOut(ttl: Ttl, at: int, now: int) {
    && ttl.For? && ParseDuration(ttl.duration).Some?
    && var secs := ParseDuration(ttl.duration).value;
       if secs > 0 then now - at >= secs * 1_000_000_000 else now - at > -1_000_000_000
  }

  /** The event takes away the entry `k` as `w` wrote it. */
  predicate Takes(e: Event, k: Key, w: Event)
    requires w.op.Act?
  {
    match e.op
    case Act(node, a) => a.kind.Delete? && KeyOf(node, a) == k
    case ClearNode(node) => k.scope == NodeScope && k.owner == node
    case ClearSession => k.scope == SessionScope
    case Expire => RunsOut(TtlOf(w.op.action), w.now, e.now)
  }

  /** Event `j` wrote the entry, and none since has written it again or taken it away. */
  ghost predicate Lives(h: seq<Event>, k: Key, j: nat) {
    && j < |h| && Writes(h[j], k)
    && forall l :: j < l < |h| ==> !Writes(h[l], k) && !Takes(h[l], k, h[j])
  }

  ghost predicate Alive(h: seq<Event>, k: Key) {
    exists j: nat :: Lives(h, k, j)
  }

  /** Event `i` began the unbroken lifetime that lasts to the end of the history. */
  ghost predicate Begins(h: seq<Event>, k: Key, i: nat) {
    && i < |h| && Writes(h[i], k) && !Alive(h[..i], k)
    && forall m :: i < m <= |h| ==> Alive(h[..m], k)
  }

  ghost predicate WrittenBy(e: Entry, w: Event)
    requires w.op.Act?
  {
    && e.topic == w.op.action.topic && e.scope == ScopeOf(w.op.action) && e.ttl == TtlOf(w.op.action)
    && e.value == ValueOf(w.op.action) && e.updatedAt == At(w.now)
  }

  /** What an event does to an entry that `w` wrote. */
  lemma TakeExact(m: Flat, e: Event, k: Key, w: Event)
    requires k in m && w.op.Act? && WrittenBy(m[k], w) && !Writes(e, k)
    ensures k in Apply(m, e) <==> !Takes(e, k, w)
    ensures k in Apply(m, e) ==> Apply(m, e)[k] == m[k]
  {
    ExpiredExact(m[k], e.now);
  }

  lemma LivesFront(h: seq<Event>, k: Key, j: nat)
    requires h != [] && j < |h| - 1
    ensures Lives(h, k, j) <==>
            Lives(h[..|h| - 1], k, j) && !Writes(h[|h| - 1], k) && !Takes(h[|h| - 1], k, h[j])
  {
    var front := h[..|h| - 1];
    assert forall l :: 0 <= l < |front| ==> front[l] == h[l];
    if Lives(front, k, j) && !Writes(h[|h| - 1], k) && !Takes(h[|h| - 1], k, h[j]) {
      forall l | j < l < |h| ensures !Writes(h[l], k) && !Takes(h[l], k, h[j]) {
        if l < |h| - 1 { assert front[l] == h[l]; }
      }
    }
  }

  lemma {:induction false} LivesPresent(h: seq<Event>, k: Key, j: nat)
    requires Lives(h, k, j)
    ensures k in Replay(map[], h) && WrittenBy(Replay(map[], h)[k], h[j])
    decreases |h|
  {
    var front, last := h[..|h| - 1], h[|h| - 1];
    ApplyEntry(Replay(map[], front), last, k);
    if j < |h| - 1 {
      LivesFront(h, k, j);
      LivesPresent(front, k, j);
      TakeExact(Replay(map[], front), last, k, h[j]);
    }
  }

  lemma {:induction false} PresentLives(h: seq<Event>, k: Key) returns (j: nat)
    requires k in Replay(map[], h)
    ensures Lives(h, k, j)
    decreases |h|
  {
    var front, last := h[..|h| - 1], h[|h| - 1];
    if Writes(last, k) {
      j := |h| - 1;
    } else {
      ApplyEntry(Replay(map[], front), last, k);
      j := PresentLives(front, k);
      LivesPresent(front, k, j);
      TakeExact(Replay(map[], front), last, k, front[j]);
      LivesFront(h, k, j);
    }
  }

  /** An entry is there after a history exactly if some event wrote it and nothing since took it. */
  lemma PresentExact(h: seq<Event>, k: Key)
    ensures k in Replay(map[], h) <==> Alive(h, k)
    ensures forall j: nat :: Lives(h, k, j) ==> k in Replay(map[], h) && WrittenBy(Replay(map[], h)[k], h[j])
  {
    forall j: nat | Lives(h, k, j) ensures k in Replay(map[], h) && WrittenBy(Replay(map[], h)[k], h[j]) {
      LivesPresent(h, k, j);
    }
    if k in Replay(map[], h) {
      var j := PresentLives(h, k);
    }
  }

  lemma BeginsOn(h: seq<Event>, k: Key, i: nat)
    requires h != [] && Begins(h[..|h| - 1], k, i) && Alive(h, k)
    ensures Begins(h, k, i)
  {
    var front := h[..|h| - 1];
    assert front[..i] == h[..i] && h[..|h|] == h;
    forall m | i < m <= |h| ensures Alive(h[..m], k) {
      if m < |h| { assert front[..m] == h[..m]; }
    }
  }

  lemma BeginsNow(h: seq<Event>, k: Key)
    requires Alive(h, k) && !Alive(h[..|h| - 1], k)
    ensures Begins(h, k, |h| - 1)
  {
    var front := h[..|h| - 1];
    PresentExact(h, k);
    PresentExact(front, k);
    ApplyEntry(Replay(map[], front), h[|h| - 1], k);
    assert h[..|h|] == h;
  }

  /** Every entry that is there has a beginning, and its creation time is the time of that. */
  lemma {:induction false} BeginsExact(h: seq<Event>, k: Key) returns (i: nat)
    requires Alive(h, k)
    ensures Begins(h, k, i)
    decreases |h|
  {
    if Alive(h[..|h| - 1], k) {
      i := BeginsExact(h[..|h| - 1], k);
      BeginsOn(h, k, i);
    } else {
      BeginsNow(h, k);
      i := |h| - 1;
    }
  }

  lemma BeginsCreated(h: seq<Event>, k: Key, i: nat)
    requires Begins(h, k, i)
    ensures k in Replay(map[], h) && Replay(map[], h)[k].createdAt == At(h[i].now)
  {
    forall m | i < m <= |h| ensures k in Replay(map[], h[..m]) {
      PresentExact(h[..m], k);
    }
    PresentExact(h[..i], k);
    CreatedExact(map[], h, k, i + 1);
  }

  /** What an entry read after a history says: it is the latest write's, but for its creation
      time, which is that of the write that began its unbroken lifetime. */
  ghost predicate Read(h: seq<Event>, k: Key, e: Entry) {
    && (exists j: nat :: Lives(h, k, j) && WrittenBy(e, h[j]))
    && (exists i: nat :: Begins(h, k, i) && e.createdAt == At(h[i].now))
  }

  lemma ReadExact(h: seq<Event>, k: Key)
    requires k in Replay(map[], h)
    ensures Alive(h, k) && Read(h, k, Replay(map[], h)[k])
  {
    var j := PresentLives(h, k);
    LivesPresent(h, k, j);
    var i := BeginsExact(h, k);
    BeginsCreated(h, k, i);
  }

  /** One action after any history, from an empty runtime. A read finds the entry exactly if
      something wrote it and nothing since took it away, and finds what was written; a removal
      says whether there was something to remove; a listing has the entries of one store. */
  method AnswerAfter(h: seq<Event>, node: Id, a: Action, now: int) returns (r: Option<MemoryResult>)
    ensures r.None? <==> Oversized(a)
    ensures a.kind.Get? ==>
      && r.Some? && r.value.Found?
      && (r.value.entry.Some? <==> Alive(h, KeyOf(node, a)))
      && (r.value.entry.Some? ==> Read(h, KeyOf(node, a), r.value.entry.value))
    ensures a.kind.Delete? ==> r.Some? && r.value.Deleted? && (r.value.existed <==> Alive(h, KeyOf(node, a)))
    ensures a.kind.List? ==>
      && r.Some? && r.value.Listed?
      && (forall j :: j in r.value.entries ==> Read(h, KeyOf(node, a).(key := j), r.value.entries[j]))
      && (forall j :: j in r.value.entries <==> exists i: nat ::
            Lives(h, KeyOf(node, a).(key := j), i) && (a.topic == "" || h[i].op.action.topic == a.topic))
    ensures a.kind.Search? ==> r == Some(SearchUnsupported)
    ensures a.kind.Upsert? && r.Some? ==> r == Some(Upserted)
  {
    var runtime := new MemoryRuntime(map[], map[]);
    assert runtime.contents == map[];
    runtime.PerformAll(h);
    var k := KeyOf(node, a);
    PresentExact(h, k);
    if k in runtime.contents { ReadExact(h, k); }
    if a.kind.List? { ListRead(h, node, a); }
    r := runtime.ExecuteAction(node, a, now);
  }

  lemma ListRead(h: seq<Event>, node: Id, a: Action)
    requires a.kind.List?
    ensures var listed := ResultOf(Replay(map[], h), node, a);
      && listed.Listed?
      && (forall j :: j in listed.entries ==> Read(h, KeyOf(node, a).(key := j), listed.entries[j]))
      && (forall j :: j in listed.entries <==> exists i: nat ::
            Lives(h, KeyOf(node, a).(key := j), i) && (a.topic == "" || h[i].op.action.topic == a.topic))
  {
    var m := Replay(map[], h);
    var listed := ResultOf(m, node, a).entries;
    forall j ensures j in listed <==> exists i: nat ::
                Lives(h, KeyOf(node, a).(key := j), i) && (a.topic == "" || h[i].op.action.topic == a.topic)
      ensures j in listed ==> Read(h, KeyOf(node, a).(key := j), listed[j])
    {
      var k := KeyOf(node, a).(key := j);
      PresentExact(h, k);
      assert k in m ==> k.key in set i | i in m :: i.key;
      if k in m { ReadExact(h, k); }
    }
  }
}
