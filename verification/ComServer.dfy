/** Reference counts of the SAPI server (sapi5/tvsapi.c): the engines, the class
    factory, server locks, the tokens engines hold, and the module's own count. */
module ComServer {
  // Engines and tokens are known by handles; what the heap, the token and the client
  // answer are parameters.

  import opened Wrappers

  datatype Engine = Engine(refs: int, token: Option<nat>, synth: bool, voice: int)

  /** What the server keeps, and what it has done outside: the engines freed, and for
      every token how many more times it was referenced than released. */
  datatype Server = Server(objects: int, engines: map<nat, Engine>, next: nat, freed: seq<nat>, net: map<nat, int>)

  function Net(s: Server, t: nat): int
  {
    if t in s.net then s.net[t] else 0
  }

  function TokenRef(s: Server, t: nat): Server
  {
    s.(net := s.net[t := Net(s, t) + 1])
  }

  function TokenRelease(s: Server, t: nat): Server
  {
    s.(net := s.net[t := Net(s, t) - 1])
  }

  // ---- what each call does ----------------------------------------------------------

  function AddRef(s: Server, h: nat): Server
    requires h in s.engines
  {
    s.(engines := s.engines[h := s.engines[h].(refs := s.engines[h].refs + 1)])
  }

  /** The last release lets the token go, frees the engine and takes it off the count. */
  function Release(s: Server, h: nat): Server
    requires h in s.engines
  {
    var e := s.engines[h];
    if e.refs - 1 != 0 then s.(engines := s.engines[h := e.(refs := e.refs - 1)])
    else
      var t := if e.token.Some? then TokenRelease(s, e.token.value) else s;
      t.(engines := t.engines - {h}, freed := t.freed + [h], objects := t.objects - 1)
  }

  function QueryInterface(s: Server, h: nat, known: bool): Server
    requires h in s.engines
  {
    if known then AddRef(s, h) else s
  }

  /** What the token says: no such value, or the voice it names. */
  datatype Answer = Answer(value: Option<int>, voices: int, created: bool)

  /** Whether SetObjectToken goes through. */
  predicate Accepts(s: Server, h: nat, a: Answer)
    requires h in s.engines
  {
    && a.value.Some? && 0 <= a.value.value < a.voices
    && (s.engines[h].synth || a.created)
  }

  function SetToken(s: Server, h: nat, t: nat, a: Answer): Server
    requires h in s.engines
  {
    if !Accepts(s, h, a) then s
    else
      var e := s.engines[h];
      var u := TokenRef(s, t);
      var v := if e.token.Some? then TokenRelease(u, e.token.value) else u;
      v.(engines := s.engines[h := e.(token := Some(t), synth := true, voice := a.value.value)])
  }

  function GetToken(s: Server, h: nat): Server
    requires h in s.engines
  {
    if s.engines[h].token.Some? then TokenRef(s, s.engines[h].token.value) else s
  }

  /** A new engine starts with one reference, which creation itself gives up again, so
      what is left is what QueryInterface took; if that refused, nothing is left. */
  function Create(s: Server, granted: bool, known: bool): Server
  {
    if !granted then s
    else
      var h := s.next;
      var t := s.(engines := s.engines[h := Engine(1, None, false, 0)], next := h + 1, objects := s.objects + 1);
      Release(QueryInterface(t, h, known), h)
  }

  // ---- the methods ------------------------------------------------------------------

  class Module {
    var objects: int
    var engines: map<nat, Engine>
    var next: nat
    var freed: seq<nat>
    var net: map<nat, int>

    function State(): Server
      reads this
    {
      Server(objects, engines, next, freed, net)
    }

    constructor ()
      ensures State() == Server(0, map[], 0, [], map[])
    {
      objects, engines, next, freed, net := 0, map[], 0, [], map[];
    }

    method TokenAddRef(t: nat)
      modifies this`net
      ensures State() == TokenRef(old(State()), t)
    {
      net := net[t := (if t in net then net[t] else 0) + 1];
    }

    method TokenDrop(t: nat)
      modifies this`net
      ensures State() == TokenRelease(old(State()), t)
    {
      net := net[t := (if t in net then net[t] else 0) - 1];
    }

    method EngAddRef(h: nat) returns (n: int)
      requires h in engines
      modifies this`engines
      ensures State() == AddRef(old(State()), h) && n == engines[h].refs
    {
      n := engines[h].refs + 1;
      engines := engines[h := engines[h].(refs := n)];
    }

    method EngRelease(h: nat) returns (n: int)
      requires h in engines
      modifies this
      ensures State() == Release(old(State()), h) && n == old(engines[h].refs) - 1
      ensures n == 0 <==> h !in engines
    {
      var e := engines[h];
      n := e.refs - 1;
      engines := engines[h := e.(refs := n)];
      if n == 0 {
        if e.token.Some? {
          TokenDrop(e.token.value);
        }
        engines := engines - {h};
        freed := freed + [h];
        objects := objects - 1;
        assert engines == old(engines) - {h};
      }
    }

    method EngQueryInterface(h: nat, known: bool) returns (ok: bool)
      requires h in engines
      modifies this`engines
      ensures State() == QueryInterface(old(State()), h, known) && ok == known
    {
      if known {
        var _ := EngAddRef(h);
      }
      ok := known;
    }

    method SetObjectToken(h: nat, t: nat, a: Answer) returns (ok: bool)
      requires h in engines
      modifies this`engines, this`net
      ensures State() == SetToken(old(State()), h, t, a) && ok == Accepts(old(State()), h, a)
    {
      if a.value.None? {
        return false;
      }
      if a.value.value < 0 || a.value.value >= a.voices {
        return false;
      }
      var e := engines[h];
      if !e.synth && !a.created {
        return false;
      }
      TokenAddRef(t);
      if e.token.Some? {
        TokenDrop(e.token.value);
      }
      engines := engines[h := e.(token := Some(t), synth := true, voice := a.value.value)];
      ok := true;
    }

    method GetObjectToken(h: nat) returns (t: Option<nat>)
      requires h in engines
      modifies this`net
      ensures State() == GetToken(old(State()), h) && t == engines[h].token
    {
      t := engines[h].token;
      if t.Some? {
        TokenAddRef(t.value);
      }
    }

    method FactoryAddRef()
      modifies this`objects
      ensures objects == old(objects) + 1
    {
      objects := objects + 1;
    }

    method FactoryRelease()
      modifies this`objects
      ensures objects == old(objects) - 1
    {
      objects := objects - 1;
    }

    method CreateInstance(granted: bool, known: bool) returns (h: Option<nat>)
      requires next !in engines
      modifies this
      ensures State() == Create(old(State()), granted, known)
      ensures h == if granted && known then Some(old(next)) else None
    {
      if !granted {
        return None;
      }
      var e := next;
      engines := engines[e := Engine(1, None, false, 0)];
      next := next + 1;
      objects := objects + 1;
      var ok := EngQueryInterface(e, known);
      var n := EngRelease(e);
      h := if ok then Some(e) else None;
    }

    method LockServer(lock: bool)
      modifies this`objects
      ensures objects == old(objects) + if lock then 1 else -1
    {
      objects := objects + if lock then 1 else -1;
    }

    method CanUnloadNow() returns (yes: bool)
      ensures yes <==> objects == 0
    {
      yes := objects == 0;
    }
  }

  // ---- clients ----------------------------------------------------------------------

  /** What clients hold: references on engines, on the factory, locks, and the tokens
      they were handed. */
  datatype Clients = Clients(refs: map<nat, nat>, factory: nat, locks: nat, handed: map<nat, nat>)

  datatype World = World(s: Server, c: Clients)

  const START := World(Server(0, map[], 0, [], map[]), Clients(map[], 0, 0, map[]))

  function Held(c: Clients, h: nat): nat
  {
    if h in c.refs then c.refs[h] else 0
  }

  function Handed(c: Clients, t: nat): nat
  {
    if t in c.handed then c.handed[t] else 0
  }

  datatype Call =
    | CreateCall(granted: bool, known: bool)
    | QueryCall(h: nat, known: bool) | AddRefCall(h: nat) | ReleaseCall(h: nat)
    | SetTokenCall(h: nat, t: nat, a: Answer) | GetTokenCall(h: nat)
    | FactoryQuery(known: bool) | FactoryAddRefCall | FactoryReleaseCall
    | LockCall(lock: bool)

  /** A client calls only through what it holds, and gives up only what it has. */
  predicate Allowed(c: Clients, call: Call)
  {
    match call
    case CreateCall(_, _) => c.factory > 0
    case QueryCall(h, _) => Held(c, h) > 0
    case AddRefCall(h) => Held(c, h) > 0
    case ReleaseCall(h) => Held(c, h) > 0
    case SetTokenCall(h, _, _) => Held(c, h) > 0
    case GetTokenCall(h) => Held(c, h) > 0
    case FactoryQuery(_) => true
    case FactoryAddRefCall => c.factory > 0
    case FactoryReleaseCall => c.factory > 0
    case LockCall(lock) => c.factory > 0 && (lock || c.locks > 0)
  }

  /** The engine called on is not one that has been freed. */
  predicate Sound(s: Server, call: Call)
  {
    match call
    case QueryCall(h, _) => h in s.engines
    case AddRefCall(h) => h in s.engines
    case ReleaseCall(h) => h in s.engines
    case SetTokenCall(h, _, _) => h in s.engines
    case GetTokenCall(h) => h in s.engines
    case _ => true
  }

  function Hold(c: Clients, h: nat, n: nat): Clients
  {
    c.(refs := c.refs[h := n])
  }

  function Called(w: World, call: Call): World
    requires Allowed(w.c, call) && Sound(w.s, call)
  {
    var s, c := w.s, w.c;
    match call
    case CreateCall(granted, known) =>
      World(Create(s, granted, known), if granted && known then Hold(c, s.next, 1) else c)
    case QueryCall(h, known) => World(QueryInterface(s, h, known), if known then Hold(c, h, Held(c, h) + 1) else c)
    case AddRefCall(h) => World(AddRef(s, h), Hold(c, h, Held(c, h) + 1))
    case ReleaseCall(h) => World(Release(s, h), Hold(c, h, Held(c, h) - 1))
    case SetTokenCall(h, t, a) => World(SetToken(s, h, t, a), c)
    case GetTokenCall(h) =>
      World(GetToken(s, h),
            if s.engines[h].token.Some? then
              c.(handed := c.handed[s.engines[h].token.value := Handed(c, s.engines[h].token.value) + 1])
            else c)
    case FactoryQuery(known) =>
      if known then World(s.(objects := s.objects + 1), c.(factory := c.factory + 1)) else w
    case FactoryAddRefCall => World(s.(objects := s.objects + 1), c.(factory := c.factory + 1))
    case FactoryReleaseCall => World(s.(objects := s.objects - 1), c.(factory := c.factory - 1))
    case LockCall(lock) =>
      World(s.(objects := s.objects + if lock then 1 else -1), c.(locks := if lock then c.locks + 1 else c.locks - 1))
  }

  // ---- what every run keeps ---------------------------------------------------------

  /** The engines that hold token `t`. */
  function Holders(engines: map<nat, Engine>, t: nat): set<nat>
  {
    set h | h in engines && engines[h].token == Some(t)
  }

  /** An engine lives exactly as long as clients hold it, by as many references. */
  predicate EngineOk(w: World, h: nat)
  {
    if h in w.s.engines then w.s.engines[h].refs == Held(w.c, h) > 0 else Held(w.c, h) == 0
  }

  predicate TokenOk(w: World, t: nat)
  {
    Net(w.s, t) == |Holders(w.s.engines, t)| + Handed(w.c, t)
  }

  ghost predicate Lives(s: Server)
  {
    && (forall h :: h in s.engines ==> h < s.next)
    && (forall h :: h in s.freed ==> h < s.next && h !in s.engines)
    && (forall h: nat :: h < s.next ==> h in s.engines || h in s.freed)
    && (forall i, j :: 0 <= i < j < |s.freed| ==> s.freed[i] != s.freed[j])
  }

  ghost predicate Balanced(w: World)
  {
    && w.s.objects == |w.s.engines.Keys| + w.c.factory + w.c.locks
    && (forall h: nat :: EngineOk(w, h))
    && (forall t: nat :: TokenOk(w, t))
    && Lives(w.s)
  }

  /** The engines other than `h` that hold token `t`. */
  function OtherHolders(engines: map<nat, Engine>, h: nat, t: nat): set<nat>
  {
    set k | k in engines && k != h && engines[k].token == Some(t)
  }

  lemma HoldersSplit(engines: map<nat, Engine>, h: nat, t: nat)
    ensures |Holders(engines, t)|
            == |OtherHolders(engines, h, t)| + (if h in engines && engines[h].token == Some(t) then 1 else 0)
  {
    if h in engines && engines[h].token == Some(t) {
      assert Holders(engines, t) == OtherHolders(engines, h, t) + {h};
    } else {
      assert Holders(engines, t) == OtherHolders(engines, h, t);
    }
  }

  lemma HoldersPut(engines: map<nat, Engine>, h: nat, e: Engine, t: nat)
    ensures |Holders(engines[h := e], t)|
            == |Holders(engines, t)| - (if h in engines && engines[h].token == Some(t) then 1 else 0)
               + (if e.token == Some(t) then 1 else 0)
  {
    HoldersSplit(engines, h, t);
    HoldersSplit(engines[h := e], h, t);
    assert OtherHolders(engines[h := e], h, t) == OtherHolders(engines, h, t);
  }

  lemma HoldersDrop(engines: map<nat, Engine>, h: nat, t: nat)
    requires h in engines
    ensures |Holders(engines - {h}, t)| == |Holders(engines, t)| - (if engines[h].token == Some(t) then 1 else 0)
  {
    var before, after := Holders(engines, t), Holders(engines - {h}, t);
    assert after == before - {h};
  }

  /** A client never calls an engine that has been freed. */
  lemma AllowedIsSound(w: World, call: Call)
    requires Balanced(w) && Allowed(w.c, call)
    ensures Sound(w.s, call)
  {
    match call
    case QueryCall(h, _) => assert EngineOk(w, h);
    case AddRefCall(h) => assert EngineOk(w, h);
    case ReleaseCall(h) => assert EngineOk(w, h);
    case SetTokenCall(h, _, _) => assert EngineOk(w, h);
    case GetTokenCall(h) => assert EngineOk(w, h);
    case _ =>
  }

  lemma AddRefKeeps(w: World, h: nat)
    requires Balanced(w) && h in w.s.engines
    ensures Balanced(World(AddRef(w.s, h), Hold(w.c, h, Held(w.c, h) + 1)))
  {
    var v := World(AddRef(w.s, h), Hold(w.c, h, Held(w.c, h) + 1));
    assert v.s.engines.Keys == w.s.engines.Keys;
    forall k: nat
      ensures EngineOk(v, k)
    {
      assert EngineOk(w, k);
    }
    forall t: nat
      ensures TokenOk(v, t)
    {
      assert TokenOk(w, t);
      HoldersPut(w.s.engines, h, v.s.engines[h], t);
    }
  }

  /** What the last release does to tokens, the count and the list of the freed. */
  lemma FreeKeeps(w: World, h: nat)
    requires Balanced(w) && h in w.s.engines && w.s.engines[h].refs == 1
    ensures Balanced(World(Release(w.s, h), Hold(w.c, h, 0)))
  {
    var v := World(Release(w.s, h), Hold(w.c, h, 0));
    assert v.s.engines.Keys == w.s.engines.Keys - {h};
    forall k: nat
      ensures EngineOk(v, k)
    {
      assert EngineOk(w, k);
    }
    forall t: nat
      ensures TokenOk(v, t)
    {
      assert TokenOk(w, t);
      HoldersDrop(w.s.engines, h, t);
    }
  }

  lemma ReleaseKeeps(w: World, h: nat)
    requires Balanced(w) && h in w.s.engines
    ensures Held(w.c, h) > 0
    ensures Balanced(World(Release(w.s, h), Hold(w.c, h, Held(w.c, h) - 1)))
  {
    assert EngineOk(w, h);
    if w.s.engines[h].refs == 1 {
      FreeKeeps(w, h);
    } else {
      var v := World(Release(w.s, h), Hold(w.c, h, Held(w.c, h) - 1));
      assert v.s.engines.Keys == w.s.engines.Keys;
      forall k: nat
        ensures EngineOk(v, k)
      {
        assert EngineOk(w, k);
      }
      forall t: nat
        ensures TokenOk(v, t)
      {
        assert TokenOk(w, t);
        HoldersPut(w.s.engines, h, v.s.engines[h], t);
      }
    }
  }

  /** Setting a token, even the one already set, leaves one reference on it. */
  lemma SetTokenKeeps(w: World, h: nat, t: nat, a: Answer)
    requires Balanced(w) && h in w.s.engines
    ensures Balanced(World(SetToken(w.s, h, t, a), w.c))
  {
    var v := World(SetToken(w.s, h, t, a), w.c);
    assert v.s.engines.Keys == w.s.engines.Keys;
    forall k: nat
      ensures EngineOk(v, k)
    {
      assert EngineOk(w, k);
    }
    forall u: nat
      ensures TokenOk(v, u)
    {
      assert TokenOk(w, u);
      if Accepts(w.s, h, a) {
        HoldersPut(w.s.engines, h, v.s.engines[h], u);
      }
    }
  }

  lemma GetTokenKeeps(w: World, h: nat)
    requires Balanced(w) && Allowed(w.c, GetTokenCall(h)) && h in w.s.engines
    ensures Balanced(Called(w, GetTokenCall(h)))
  {
    var v := Called(w, GetTokenCall(h));
    forall k: nat
      ensures EngineOk(v, k)
    {
      assert EngineOk(w, k);
    }
    forall t: nat
      ensures TokenOk(v, t)
    {
      assert TokenOk(w, t);
    }
  }

  lemma NewLives(s: Server, e: Engine)
    requires Lives(s)
    ensures Lives(s.(engines := s.engines[s.next := e], next := s.next + 1, objects := s.objects + 1))
  {
  }

  /** The engine as creation leaves it before it gives up its own reference, that
      reference counted as the client's. */
  lemma NewKeeps(w: World)
    requires Balanced(w)
    ensures Balanced(Made(w))
  {
    var h, v := w.s.next, Made(w);
    assert v.s.engines.Keys == w.s.engines.Keys + {h};
    NewLives(w.s, v.s.engines[h]);
    hide Lives;
    forall k: nat
      ensures EngineOk(v, k)
    {
      assert EngineOk(w, k);
    }
    forall t: nat
      ensures TokenOk(v, t)
    {
      assert TokenOk(w, t);
      HoldersPut(w.s.engines, h, v.s.engines[h], t);
    }
  }

  /** Two ways to write down the same holdings balance alike. */
  lemma SameHoldings(w: World, v: World)
    requires Balanced(w) && v.s == w.s && v.c.factory == w.c.factory && v.c.locks == w.c.locks
    requires v.c.handed == w.c.handed
    requires forall h: nat :: Held(v.c, h) == Held(w.c, h)
    ensures Balanced(v)
  {
    forall k: nat
      ensures EngineOk(v, k)
    {
      assert EngineOk(w, k);
    }
    forall t: nat
      ensures TokenOk(v, t)
    {
      assert TokenOk(w, t);
    }
  }

  /** The engine as it is made, and the client that makes it. */
  function Made(w: World): World
  {
    var h := w.s.next;
    World(w.s.(engines := w.s.engines[h := Engine(1, None, false, 0)], next := h + 1, objects := w.s.objects + 1),
          Hold(w.c, h, 1))
  }

  lemma CreateKnownKeeps(w: World)
    requires Balanced(w)
    ensures Balanced(World(Create(w.s, true, true), Hold(w.c, w.s.next, 1)))
  {
    hide Balanced;
    var h, n := w.s.next, Made(w);
    NewKeeps(w);
    AddRefKeeps(n, h);
    var m := World(AddRef(n.s, h), Hold(n.c, h, 2));
    ReleaseKeeps(m, h);
    SameHoldings(World(Release(m.s, h), Hold(m.c, h, 1)), World(Create(w.s, true, true), Hold(w.c, h, 1)));
  }

  lemma CreateUnknownKeeps(w: World)
    requires Balanced(w) && Held(w.c, w.s.next) == 0
    ensures Balanced(World(Create(w.s, true, false), w.c))
  {
    hide Balanced;
    var h, n := w.s.next, Made(w);
    NewKeeps(w);
    ReleaseKeeps(n, h);
    SameHoldings(World(Release(n.s, h), Hold(n.c, h, 0)), World(Create(w.s, true, false), w.c));
  }

  lemma CreateKeeps(w: World, granted: bool, known: bool)
    requires Balanced(w)
    ensures Balanced(World(Create(w.s, granted, known), if granted && known then Hold(w.c, w.s.next, 1) else w.c))
  {
    assert EngineOk(w, w.s.next);
    hide Balanced, Create;
    if granted {
      if known {
        CreateKnownKeeps(w);
      } else {
        CreateUnknownKeeps(w);
      }
    } else {
      NotMade(w, known);
    }
  }

  lemma NotMade(w: World, known: bool)
    ensures Create(w.s, false, known) == w.s
  {
  }

  lemma CountsKeep(w: World, objects: int, factory: nat, locks: nat)
    requires Balanced(w) && objects - factory - locks == w.s.objects - w.c.factory - w.c.locks
    ensures Balanced(World(w.s.(objects := objects), w.c.(factory := factory, locks := locks)))
  {
    var v := World(w.s.(objects := objects), w.c.(factory := factory, locks := locks));
    forall k: nat
      ensures EngineOk(v, k)
    {
      assert EngineOk(w, k);
    }
    forall t: nat
      ensures TokenOk(v, t)
    {
      assert TokenOk(w, t);
    }
  }

  lemma CallKeeps(w: World, call: Call)
    requires Balanced(w) && Allowed(w.c, call) && Sound(w.s, call)
    ensures Balanced(Called(w, call))
  {
    hide Balanced;
    var s, c := w.s, w.c;
    match call
    case CreateCall(granted, known) => CreateKeeps(w, granted, known);
    case QueryCall(h, known) =>
      if known {
        AddRefKeeps(w, h);
      }
    case AddRefCall(h) => AddRefKeeps(w, h);
    case ReleaseCall(h) => ReleaseKeeps(w, h);
    case SetTokenCall(h, t, a) => SetTokenKeeps(w, h, t, a);
    case GetTokenCall(h) => GetTokenKeeps(w, h);
    case FactoryQuery(known) =>
      if known {
        CountsKeep(w, s.objects + 1, c.factory + 1, c.locks);
      }
    case FactoryAddRefCall => CountsKeep(w, s.objects + 1, c.factory + 1, c.locks);
    case FactoryReleaseCall => CountsKeep(w, s.objects - 1, c.factory - 1, c.locks);
    case LockCall(lock) =>
      CountsKeep(w, s.objects + if lock then 1 else -1, c.factory, if lock then c.locks + 1 else c.locks - 1);
  }

  // ---- runs -------------------------------------------------------------------------

  /** The calls one after another; None when a client does what it may not. */
  function Run(w: World, calls: seq<Call>): Option<World>
    decreases |calls|
  {
    if calls == [] then Some(w)
    else if !Allowed(w.c, calls[0]) || !Sound(w.s, calls[0]) then None
    else Run(Called(w, calls[0]), calls[1..])
  }

  lemma {:induction false} RunKeeps(w: World, calls: seq<Call>)
    requires Balanced(w) && Run(w, calls).Some?
    ensures Balanced(Run(w, calls).value)
    decreases |calls|
  {
    if calls == [] {
    } else {
      CallKeeps(w, calls[0]);
      RunKeeps(Called(w, calls[0]), calls[1..]);
    }
  }

  lemma StartBalanced()
    ensures Balanced(START)
  {
    forall t: nat
      ensures TokenOk(START, t)
    {
      assert Holders(map[], t) == {};
    }
  }

  /** After any run of clients that give back no more than they hold: the module's count
      is the live engines, the factory references and the locks; every engine made is
      either alive, with as many references as clients hold, or freed, once; and every
      token has one reference from each engine it is set on and one for each time it was
      handed out. */
  lemma RunBalances(calls: seq<Call>)
    requires Run(START, calls).Some?
    ensures Balanced(Run(START, calls).value)
  {
    StartBalanced();
    RunKeeps(START, calls);
  }

  /** No call a client may make ever reaches a freed engine. */
  lemma NeverAfterFree(calls: seq<Call>, call: Call)
    requires Run(START, calls).Some? && Allowed(Run(START, calls).value.c, call)
    ensures Sound(Run(START, calls).value.s, call)
  {
    RunBalances(calls);
    AllowedIsSound(Run(START, calls).value, call);
  }

  /** The module may be unloaded exactly when no client holds anything of it; then every
      engine it made has been freed and no token is held by one. */
  lemma UnloadsExactlyWhenIdle(calls: seq<Call>)
    requires Run(START, calls).Some?
    ensures
      var w := Run(START, calls).value;
      && (w.s.objects == 0 <==> w.c.factory == 0 && w.c.locks == 0 && forall h: nat :: Held(w.c, h) == 0)
      && (w.s.objects == 0 ==> forall t: nat :: Net(w.s, t) == Handed(w.c, t))
  {
    RunBalances(calls);
    var w := Run(START, calls).value;
    if w.s.engines.Keys != {} {
      var h :| h in w.s.engines.Keys;
      assert EngineOk(w, h);
    }
    if w.s.objects == 0 {
      assert w.s.engines.Keys == {};
      forall h: nat
        ensures Held(w.c, h) == 0
      {
        assert EngineOk(w, h);
      }
      forall t: nat
        ensures Net(w.s, t) == Handed(w.c, t)
      {
        assert TokenOk(w, t);
        assert Holders(w.s.engines, t) == {};
      }
    }
  }

  // ---- which voice an engine speaks with --------------------------------------------

  /** Call `i` sets a token on engine `h`: it names a voice there is, and the engine has a
      synthesiser, from this call or from one before that set a token. */
  predicate Sets(calls: seq<Call>, h: nat, i: nat)
    requires i < |calls|
    decreases i
  {
    && calls[i].SetTokenCall? && calls[i].h == h
    && calls[i].a.value.Some? && 0 <= calls[i].a.value.value < calls[i].a.voices
    && (calls[i].a.created || exists k: nat :: k < i && Sets(calls, h, k))
  }

  predicate LastSets(calls: seq<Call>, h: nat, i: nat)
    requires i < |calls|
  {
    Sets(calls, h, i) && forall k: nat :: i < k < |calls| ==> !Sets(calls, h, k)
  }

  /** The engine has the token, and the voice it names, of the last call that set one. */
  predicate VoiceAsSet(e: Engine, calls: seq<Call>, h: nat)
  {
    && (e.synth <==> exists i: nat :: i < |calls| && Sets(calls, h, i))
    && (forall i: nat :: i < |calls| && LastSets(calls, h, i) ==>
          e.token == Some(calls[i].t) && e.voice == calls[i].a.value.value)
    && (!e.synth ==> e.token == None)
  }

  ghost predicate VoicesAsSet(s: Server, calls: seq<Call>)
  {
    && (forall h: nat :: h in s.engines ==> VoiceAsSet(s.engines[h], calls, h))
    && (forall i: nat :: i < |calls| && calls[i].SetTokenCall? ==> calls[i].h < s.next)
  }

  lemma {:induction false} SetsMore(calls: seq<Call>, call: Call, h: nat, i: nat)
    requires i < |calls|
    ensures Sets(calls + [call], h, i) <==> Sets(calls, h, i)
    decreases i
  {
    forall k: nat | k < i
      ensures Sets(calls + [call], h, k) <==> Sets(calls, h, k)
    {
      SetsMore(calls, call, h, k);
    }
  }

  /** A call that sets no token on `h` leaves what its voice should be. */
  lemma VoiceStays(e: Engine, calls: seq<Call>, call: Call, h: nat)
    requires VoiceAsSet(e, calls, h) && !Sets(calls + [call], h, |calls|)
    ensures VoiceAsSet(e, calls + [call], h)
  {
    var more := calls + [call];
    forall i: nat | i < |calls|
      ensures Sets(more, h, i) <==> Sets(calls, h, i)
    {
      SetsMore(calls, call, h, i);
    }
    forall i: nat | i < |more| && LastSets(more, h, i)
      ensures e.token == Some(more[i].t) && e.voice == more[i].a.value.value
    {
      assert LastSets(calls, h, i);
    }
    if i: nat :| i < |calls| && Sets(calls, h, i) {
      assert Sets(more, h, i);
    }
  }

  /** An engine just set has what the call says. */
  lemma VoiceSet(s: Server, calls: seq<Call>, h: nat, t: nat, a: Answer)
    requires h in s.engines && VoiceAsSet(s.engines[h], calls, h)
    requires Accepts(s, h, a) <==> Sets(calls + [SetTokenCall(h, t, a)], h, |calls|)
    ensures VoiceAsSet(SetToken(s, h, t, a).engines[h], calls + [SetTokenCall(h, t, a)], h)
  {
    var more := calls + [SetTokenCall(h, t, a)];
    if Accepts(s, h, a) {
      forall i: nat | i < |more| && LastSets(more, h, i)
        ensures i == |calls|
      {
      }
    } else {
      VoiceStays(s.engines[h], calls, SetTokenCall(h, t, a), h);
    }
  }

  lemma AcceptsWhenSets(s: Server, calls: seq<Call>, h: nat, t: nat, a: Answer)
    requires h in s.engines && VoiceAsSet(s.engines[h], calls, h)
    ensures Accepts(s, h, a) <==> Sets(calls + [SetTokenCall(h, t, a)], h, |calls|)
  {
    var more := calls + [SetTokenCall(h, t, a)];
    forall i: nat | i < |calls|
      ensures Sets(more, h, i) <==> Sets(calls, h, i)
    {
      SetsMore(calls, SetTokenCall(h, t, a), h, i);
    }
  }

  lemma SetTokenVoices(w: World, calls: seq<Call>, h: nat, t: nat, a: Answer)
    requires VoicesAsSet(w.s, calls) && h in w.s.engines && Lives(w.s)
    ensures VoicesAsSet(SetToken(w.s, h, t, a), calls + [SetTokenCall(h, t, a)])
  {
    hide VoiceAsSet, Accepts;
    var more := calls + [SetTokenCall(h, t, a)];
    AcceptsWhenSets(w.s, calls, h, t, a);
    VoiceSet(w.s, calls, h, t, a);
    var v := SetToken(w.s, h, t, a);
    forall k: nat | k in v.engines
      ensures VoiceAsSet(v.engines[k], more, k)
    {
      if k != h {
        VoiceStays(w.s.engines[k], calls, SetTokenCall(h, t, a), k);
      }
    }
  }

  /** Engines that other calls leave, or make, have their voices as set. */
  lemma OtherVoices(w: World, calls: seq<Call>, call: Call)
    requires VoicesAsSet(w.s, calls) && Lives(w.s) && Allowed(w.c, call) && Sound(w.s, call) && !call.SetTokenCall?
    ensures VoicesAsSet(Called(w, call).s, calls + [call])
  {
    var more, v := calls + [call], Called(w, call).s;
    SameVoices(w, call);
    hide Called, Allowed, Sound, VoiceAsSet;
    forall k: nat | k in v.engines
      ensures VoiceAsSet(v.engines[k], more, k)
    {
      if k in w.s.engines {
        VoiceStays(w.s.engines[k], calls, call, k);
        VoiceCopied(w.s.engines[k], v.engines[k], more, k);
      } else {
        NeverSet(v.engines[k], more, k);
      }
    }
  }

  lemma VoiceCopied(e: Engine, f: Engine, calls: seq<Call>, h: nat)
    requires VoiceAsSet(e, calls, h) && f.synth == e.synth && f.token == e.token && f.voice == e.voice
    ensures VoiceAsSet(f, calls, h)
  {
  }

  lemma NeverSet(e: Engine, calls: seq<Call>, h: nat)
    requires !e.synth && e.token == None && forall i: nat :: i < |calls| && calls[i].SetTokenCall? ==> calls[i].h != h
    ensures VoiceAsSet(e, calls, h)
  {
  }

  /** Calls other than SetObjectToken change no voice and make engines without one. */
  lemma SameVoices(w: World, call: Call)
    requires Allowed(w.c, call) && Sound(w.s, call) && !call.SetTokenCall?
    ensures w.s.next <= Called(w, call).s.next
    ensures forall h: nat :: h in Called(w, call).s.engines && h in w.s.engines ==>
              var e, f := w.s.engines[h], Called(w, call).s.engines[h];
              h == w.s.next || (f.synth == e.synth && f.token == e.token && f.voice == e.voice)
    ensures forall h: nat :: h in Called(w, call).s.engines && h !in w.s.engines ==>
              h == w.s.next && !Called(w, call).s.engines[h].synth && Called(w, call).s.engines[h].token == None
  {
    match call
    case CreateCall(granted, known) =>
    case _ =>
  }

  lemma {:induction false} RunSplit(w: World, calls: seq<Call>, call: Call)
    requires Run(w, calls + [call]).Some?
    ensures Run(w, calls).Some?
    ensures
      var v := Run(w, calls).value;
      Allowed(v.c, call) && Sound(v.s, call) && Run(w, calls + [call]) == Some(Called(v, call))
    decreases |calls|
  {
    hide Called, Allowed, Sound;
    if calls == [] {
      assert (calls + [call])[1..] == [];
    } else {
      assert (calls + [call])[1..] == calls[1..] + [call];
      RunSplit(Called(w, calls[0]), calls[1..], call);
    }
  }

  /** After any run every live engine speaks with the voice named by the last token it
      accepted, and holds that token; it has no synthesiser and no token until then. */
  lemma {:induction false} VoicesOfRun(calls: seq<Call>)
    requires Run(START, calls).Some?
    ensures VoicesAsSet(Run(START, calls).value.s, calls)
    decreases |calls|
  {
    if calls == [] {
    } else {
      var init, call := calls[..|calls| - 1], calls[|calls| - 1];
      assert calls == init + [call];
      RunSplit(START, init, call);
      VoicesOfRun(init);
      RunBalances(init);
      var w := Run(START, init).value;
      if call.SetTokenCall? {
        SetTokenVoices(w, init, call.h, call.t, call.a);
      } else {
        OtherVoices(w, init, call);
      }
    }
  }
}
