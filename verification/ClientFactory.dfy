/** The cache of Snowflake clients (internal/clients/clientfactory/factory.go): a map with
    an LRU order, whose lock is released while a connection is being opened.

    The step functions are the sections the code runs under its lock; `Factory` is the
    object made of them; `System` interleaves the sections of any number of concurrent
    `GetOrCreate` calls. */
module ClientFactory {
  import opened Strings

  /** A client is named by the number of the connection attempt that opened it. */
  datatype Entry = Entry(client: nat, hash: string, lastAccess: int)

  /** `lru` runs from the least to the most recently used provider; `closed` holds the
      clients on which Close has been called. */
  datatype Cache = Cache(clients: map<string, Entry>, lru: seq<string>, closed: set<nat>)

  datatype Limits = Limits(maxSize: int, idleTTL: int)

  // ---------------------------------------------------------------- the locked sections

  function Without(lru: seq<string>, p: string): (r: seq<string>)
    ensures forall q :: q in r <==> q in lru && q != p
  {
    if lru == [] then []
    else (if lru[0] == p then [] else [lru[0]]) + Without(lru[1..], p)
  }

  /** The idle test of `tryGetCached`, and that of `getOrCreateLocked`; they differ on a
      negative limit only. */
  predicate Expired(l: Limits, e: Entry, now: int) {
    l.idleTTL > 0 && now - e.lastAccess > l.idleTTL
  }

  predicate Stale(l: Limits, e: Entry, now: int) {
    l.idleTTL != 0 && now - e.lastAccess > l.idleTTL
  }

  /** Move to the most recently used end and stamp the access. */
  function Touch(c: Cache, p: string, now: int): (r: Cache)
    requires p in c.clients
  {
    c.(clients := c.clients[p := c.clients[p].(lastAccess := now)], lru := Without(c.lru, p) + [p])
  }

  /** Close and forget the client of a provider. */
  function Drop(c: Cache, p: string): (r: Cache)
    requires p in c.clients
  {
    Cache(c.clients - {p}, Without(c.lru, p), c.closed + {c.clients[p].client})
  }

  /** `tryGetCached`. */
  function TryGet(l: Limits, c: Cache, p: string, hash: string, now: int): (r: (Cache, Option<nat>)) {
    if p !in c.clients || c.clients[p].hash != hash || Expired(l, c.clients[p], now) then (c, None)
    else (Touch(c, p, now), Some(c.clients[p].client))
  }

  /** Make room: `evictLRU` when the cache is full. */
  function MakeRoom(l: Limits, c: Cache): (r: Cache) {
    if l.maxSize > 0 && |c.clients| >= l.maxSize && c.lru != [] && c.lru[0] in c.clients
    then Drop(c, c.lru[0]) else c
  }

  /** The first section of `getOrCreateLocked`: a hit, or room for a new client. */
  function Begin(l: Limits, c: Cache, p: string, hash: string, now: int): (r: (Cache, Option<nat>)) {
    if p in c.clients && c.clients[p].hash == hash && !Stale(l, c.clients[p], now)
    then (Touch(c, p, now), Some(c.clients[p].client))
    else (MakeRoom(l, if p in c.clients then Drop(c, p) else c), None)
  }

  /** The second section, with a freshly opened client: insert it, or close it again when
      another call has filled the slot meanwhile. */
  function Insert(c: Cache, p: string, hash: string, client: nat, now: int): (r: (Cache, nat)) {
    if p in c.clients
    then (Touch(c.(closed := c.closed + {client}), p, now), c.clients[p].client)
    else (c.(clients := c.clients[p := Entry(client, hash, now)], lru := c.lru + [p]), client)
  }

  /** `Evict`. */
  function Evict(c: Cache, p: string): (r: Cache) {
    if p in c.clients then Drop(c, p) else c
  }

  /** `Close`. */
  function CloseAll(c: Cache): (r: Cache) {
    Cache(map[], [], c.closed + set p | p in c.clients :: c.clients[p].client)
  }

  // ---------------------------------------------------------------- the object

  class Factory {
    var clients: map<string, Entry>
    var lru: seq<string>
    var closed: set<nat>
    const limits: Limits

    constructor (l: Limits)
      ensures limits == l && View() == Cache(map[], [], {})
    {
      limits := l;
      clients, lru, closed := map[], [], {};
    }

    function View(): (c: Cache)
      reads this
    {
      Cache(clients, lru, closed)
    }

    /** Map and list hold the same providers, each once. */
    ghost predicate Valid()
      reads this
    {
      Linked(View())
    }

    /** Stamp the access and move the provider to the most recently used end. */
    method Promote(provider: string, now: int) returns (client: nat)
      requires Valid() && provider in clients
      modifies this`clients, this`lru
      ensures Valid() && View() == Touch(old(View()), provider, now) && client == old(clients)[provider].client
    {
      var entry := clients[provider];
      TouchLinked(View(), provider, now);
      clients := clients[provider := entry.(lastAccess := now)];
      lru := Without(lru, provider) + [provider];
      return entry.client;
    }

    method TryGetCached(provider: string, hash: string, now: int) returns (client: Option<nat>)
      requires Valid()
      modifies this`clients, this`lru
      ensures Valid()
      ensures (View(), client) == TryGet(limits, old(View()), provider, hash, now)
    {
      if provider !in clients { return None; }
      var entry := clients[provider];
      if entry.hash != hash { return None; }
      if limits.idleTTL > 0 && now - entry.lastAccess > limits.idleTTL { return None; }
      var c := Promote(provider, now);
      return Some(c);
    }

    method CloseAndRemove(provider: string)
      requires Valid() && provider in clients
      modifies this`clients, this`lru, this`closed
      ensures Valid() && View() == Drop(old(View()), provider)
    {
      DropLinked(View(), provider);
      closed := closed + {clients[provider].client};
      lru := Without(lru, provider);
      clients := clients - {provider};
    }

    /** `evictLRU`, when the cache is full. */
    method EvictLRU()
      requires Valid()
      modifies this`clients, this`lru, this`closed
      ensures Valid() && View() == MakeRoom(limits, old(View()))
    {
      if limits.maxSize > 0 && |clients| >= limits.maxSize {
        if lru != [] {
          assert lru[0] in lru;
          CloseAndRemove(lru[0]);
        }
      }
    }

    method BeginCreate(provider: string, hash: string, now: int) returns (client: Option<nat>)
      requires Valid()
      modifies this`clients, this`lru, this`closed
      ensures Valid()
      ensures (View(), client) == Begin(limits, old(View()), provider, hash, now)
    {
      if provider in clients {
        var entry := clients[provider];
        if entry.hash == hash {
          if limits.idleTTL == 0 || now - entry.lastAccess <= limits.idleTTL {
            var c := Promote(provider, now);
            return Some(c);
          }
          CloseAndRemove(provider);
        } else {
          CloseAndRemove(provider);
        }
      }
      EvictLRU();
      return None;
    }

    method InsertCreated(provider: string, hash: string, fresh': nat, now: int) returns (client: nat)
      requires Valid()
      modifies this`clients, this`lru, this`closed
      ensures Valid()
      ensures (View(), client) == Insert(old(View()), provider, hash, fresh', now)
    {
      if provider in clients {
        closed := closed + {fresh'};
        client := Promote(provider, now);
        return;
      }
      clients := clients[provider := Entry(fresh', hash, now)];
      lru := lru + [provider];
      return fresh';
    }

    method EvictProvider(provider: string)
      requires Valid()
      modifies this`clients, this`lru, this`closed
      ensures Valid() && View() == Evict(old(View()), provider)
    {
      if provider in clients { CloseAndRemove(provider); }
    }

    /** `Close`, visiting the clients in any order. */
    method Close()
      modifies this`clients, this`lru, this`closed
      ensures View() == CloseAll(old(View()))
    {
      var all := clients;
      while clients != map[]
        invariant forall p :: p in clients ==> p in all && clients[p] == all[p]
        invariant closed == old(closed) + set p | p in all && p !in clients :: all[p].client
        decreases |clients|
      {
        var name :| name in clients;
        closed := closed + {clients[name].client};
        clients := clients - {name};
      }
      lru := [];
    }
  }

  // ---------------------------------------------------------------- map and list agree

  predicate NoDup(s: seq<string>) {
    forall i, j :: 0 <= i < j < |s| ==> s[i] != s[j]
  }

  /** Map and list hold the same providers, each once. */
  ghost predicate Linked(c: Cache) {
    NoDup(c.lru) && forall p :: p in c.lru <==> p in c.clients
  }

  lemma {:induction false} WithoutAbsent(s: seq<string>, p: string)
    requires p !in s
    ensures Without(s, p) == s
  {
    if s != [] {
      WithoutAbsent(s[1..], p);
      assert s == [s[0]] + s[1..];
    }
  }

  /** Removing a provider keeps the rest in order, each once. */
  lemma {:induction false} WithoutNoDup(s: seq<string>, p: string)
    requires NoDup(s)
    ensures NoDup(Without(s, p))
    ensures |Without(s, p)| == if p in s then |s| - 1 else |s|
  {
    if s == [] {
    } else {
      var tail := s[1..];
      assert s[0] !in tail;
      assert NoDup(tail);
      if s[0] == p {
        WithoutAbsent(tail, p);
        assert Without(s, p) == tail;
      } else {
        WithoutNoDup(tail, p);
        assert Without(s, p) == [s[0]] + Without(tail, p);
      }
    }
  }

  lemma TouchLinked(c: Cache, p: string, now: int)
    requires Linked(c) && p in c.clients
    ensures Linked(Touch(c, p, now)) && |Touch(c, p, now).lru| == |c.lru|
  {
    WithoutNoDup(c.lru, p);
  }

  lemma DropLinked(c: Cache, p: string)
    requires Linked(c) && p in c.clients
    ensures Linked(Drop(c, p)) && |Drop(c, p).lru| == |c.lru| - 1
  {
    WithoutNoDup(c.lru, p);
  }

  lemma MakeRoomLinked(l: Limits, c: Cache)
    requires Linked(c)
    ensures Linked(MakeRoom(l, c)) && |MakeRoom(l, c).lru| <= |c.lru|
    ensures l.maxSize > 0 ==> |MakeRoom(l, c).lru| < l.maxSize || |MakeRoom(l, c).lru| == |c.lru| - 1
  {
    SizesAgree(c);
    if c.lru != [] {
      assert c.lru[0] in c.lru;
      DropLinked(c, c.lru[0]);
    }
  }

  lemma SizesAgree(c: Cache)
    requires Linked(c)
    ensures |c.clients| == |c.lru|
  {
    SetOfNoDup(c.lru);
    assert c.clients.Keys == set p | p in c.lru;
  }

  lemma {:induction false} SetOfNoDup(s: seq<string>)
    requires NoDup(s)
    ensures |set p | p in s| == |s|
  {
    if s != [] {
      SetOfNoDup(s[1..]);
      assert s[0] !in s[1..];
      assert (set p | p in s) == {s[0]} + set p | p in s[1..];
    }
  }

  // ---------------------------------------------------------------- concurrent calls

  /** A `GetOrCreate` call between its two locked sections. */
  datatype Request = Request(provider: string, hash: string)

  /** `issued` counts the connections opened so far; `clock` is the latest reading. */
  datatype System = System(cache: Cache, pending: seq<Request>, issued: nat, clock: int)

  datatype Event =
    | Lookup(req: Request, now: int)
    | Start(req: Request, now: int)
    | Connected(i: nat, now: int)      // the connection of the i-th pending call is up
    | ConnectFailed(i: nat)
    | EvictClient(provider: string)
    | Shutdown

  const EMPTY := System(Cache(map[], [], {}), [], 0, 0)

  function RemoveAt(s: seq<Request>, i: nat): (r: seq<Request>)
    requires i < |s|
    ensures |r| == |s| - 1
  {
    s[..i] + s[i + 1..]
  }

  /** An event takes place only when it can: a call is started once per provider and hash
      (singleflight), and the clock does not run back. */
  predicate Enabled(s: System, e: Event) {
    match e
    case Lookup(_, now) => s.clock <= now
    case Start(req, now) => s.clock <= now && req !in s.pending
    case Connected(i, now) => s.clock <= now && i < |s.pending|
    case ConnectFailed(i) => i < |s.pending|
    case EvictClient(_) => true
    case Shutdown => true
  }

  function Next(l: Limits, s: System, e: Event): (t: System) {
    if !Enabled(s, e) then s else
    match e
    case Lookup(req, now) =>
      s.(cache := TryGet(l, s.cache, req.provider, req.hash, now).0, clock := now)
    case Start(req, now) =>
      var r := Begin(l, s.cache, req.provider, req.hash, now);
      s.(cache := r.0, pending := if r.1.None? then s.pending + [req] else s.pending, clock := now)
    case Connected(i, now) =>
      var req := s.pending[i];
      System(Insert(s.cache, req.provider, req.hash, s.issued, now).0, RemoveAt(s.pending, i), s.issued + 1, now)
    case ConnectFailed(i) => s.(pending := RemoveAt(s.pending, i))
    case EvictClient(p) => s.(cache := Evict(s.cache, p))
    case Shutdown => s.(cache := CloseAll(s.cache))
  }

  function Exec(l: Limits, s: System, run: seq<Event>): (t: System)
    decreases run
  {
    if run == [] then s else Exec(l, Next(l, s, run[0]), run[1..])
  }

  // ---------------------------------------------------------------- no client is lost or closed twice

  ghost predicate Holds(c: Cache, client: nat) {
    exists p :: p in c.clients && c.clients[p].client == client
  }

  /** Every client opened so far is either cached, under one provider, or closed; never both. */
  ghost predicate Accounted(c: Cache, issued: nat) {
    && (forall k: nat :: k < issued ==> k in c.closed || Holds(c, k))
    && (forall k :: k in c.closed ==> k < issued && !Holds(c, k))
    && (forall p :: p in c.clients ==> c.clients[p].client < issued)
    && (forall p, q :: p in c.clients && q in c.clients && p != q ==> c.clients[p].client != c.clients[q].client)
  }

  lemma TouchAccounted(c: Cache, p: string, now: int, issued: nat)
    requires Accounted(c, issued) && p in c.clients
    ensures Accounted(Touch(c, p, now), issued)
  {
    var r := Touch(c, p, now);
    assert forall q :: q in c.clients <==> q in r.clients;
    assert forall q :: q in c.clients ==> r.clients[q].client == c.clients[q].client;
    forall k: nat ensures Holds(r, k) == Holds(c, k) {
      if Holds(c, k) {
        var q :| q in c.clients && c.clients[q].client == k;
        assert q in r.clients && r.clients[q].client == k;
      }
      if Holds(r, k) {
        var q :| q in r.clients && r.clients[q].client == k;
        assert q in c.clients && c.clients[q].client == k;
      }
    }
  }

  lemma DropAccounted(c: Cache, p: string, issued: nat)
    requires Accounted(c, issued) && p in c.clients
    ensures Accounted(Drop(c, p), issued)
  {
    var r := Drop(c, p);
    forall k: nat ensures Holds(r, k) == (Holds(c, k) && k != c.clients[p].client) {
      if Holds(c, k) && k != c.clients[p].client {
        var q :| q in c.clients && c.clients[q].client == k;
        assert q in r.clients && r.clients[q].client == k;
      }
      if Holds(r, k) {
        var q :| q in r.clients && r.clients[q].client == k;
        assert q in c.clients && c.clients[q].client == k;
      }
    }
  }

  lemma InsertAccounted(c: Cache, p: string, hash: string, issued: nat, now: int)
    requires Accounted(c, issued)
    ensures Accounted(Insert(c, p, hash, issued, now).0, issued + 1)
  {
    if p in c.clients {
      var c' := c.(closed := c.closed + {issued});
      forall k: nat ensures Holds(c', k) == Holds(c, k) {
        if Holds(c, k) {
          var q :| q in c.clients && c.clients[q].client == k;
          assert q in c'.clients && c'.clients[q].client == k;
        }
      }
      TouchAccounted(c', p, now, issued + 1);
    } else {
      var r := Insert(c, p, hash, issued, now).0;
      assert p in r.clients && r.clients[p].client == issued;
      forall k: nat ensures Holds(r, k) == (Holds(c, k) || k == issued) {
        if Holds(c, k) {
          var q :| q in c.clients && c.clients[q].client == k;
          assert q in r.clients && r.clients[q].client == k;
        }
      }
    }
  }

  lemma CloseAllAccounted(c: Cache, issued: nat)
    requires Accounted(c, issued)
    ensures Accounted(CloseAll(c), issued)
  {
  }

  lemma MakeRoomAccounted(l: Limits, c: Cache, issued: nat)
    requires Accounted(c, issued)
    ensures Accounted(MakeRoom(l, c), issued)
  {
    if c.lru != [] && c.lru[0] in c.clients { DropAccounted(c, c.lru[0], issued); }
  }

  lemma BeginAccounted(l: Limits, c: Cache, p: string, hash: string, now: int, issued: nat)
    requires Accounted(c, issued)
    ensures Accounted(Begin(l, c, p, hash, now).0, issued)
  {
    if p in c.clients {
      TouchAccounted(c, p, now, issued);
      DropAccounted(c, p, issued);
      MakeRoomAccounted(l, Drop(c, p), issued);
    } else {
      MakeRoomAccounted(l, c, issued);
    }
  }

  /** Conservation, in every interleaving of calls, evictions and shutdowns: every client opened is
      cached or closed, and none is closed while still cached. */
  lemma {:induction false} ClientsConserved(l: Limits, s: System, run: seq<Event>)
    requires Accounted(s.cache, s.issued)
    ensures var t := Exec(l, s, run); Accounted(t.cache, t.issued)
    decreases run
  {
    if run != [] {
      var e := run[0];
      if Enabled(s, e) {
        match e
        case Lookup(req, now) =>
          if req.provider in s.cache.clients { TouchAccounted(s.cache, req.provider, now, s.issued); }
        case Start(req, now) => BeginAccounted(l, s.cache, req.provider, req.hash, now, s.issued);
        case Connected(i, now) =>
          InsertAccounted(s.cache, s.pending[i].provider, s.pending[i].hash, s.issued, now);
        case ConnectFailed(_) =>
        case EvictClient(p) => if p in s.cache.clients { DropAccounted(s.cache, p, s.issued); }
        case Shutdown => CloseAllAccounted(s.cache, s.issued);
      }
      ClientsConserved(l, Next(l, s, e), run[1..]);
    }
  }

  // ---------------------------------------------------------------- what stays open

  /** The clients opened and not closed. */
  function OpenClients(s: System): (r: set<nat>) {
    set k: nat | k < s.issued && k !in s.cache.closed
  }

  /** The clients cached under some of the providers. */
  function ClientsOf(clients: map<string, Entry>, keys: set<string>): (r: set<nat>)
    requires keys <= clients.Keys
  {
    set p | p in keys :: clients[p].client
  }

  lemma {:induction false} ClientsOfSize(clients: map<string, Entry>, keys: set<string>)
    requires keys <= clients.Keys
    requires forall p, q :: p in clients && q in clients && p != q ==> clients[p].client != clients[q].client
    ensures |ClientsOf(clients, keys)| == |keys|
    decreases keys
  {
    if keys != {} {
      var p :| p in keys;
      ClientsOfSize(clients, keys - {p});
      assert ClientsOf(clients, keys) == ClientsOf(clients, keys - {p}) + {clients[p].client};
    }
  }

  /** After every run exactly the cached clients are open, one per cached provider. */
  lemma OpenAreCached(l: Limits, run: seq<Event>)
    ensures var s := Exec(l, EMPTY, run);
            OpenClients(s) == ClientsOf(s.cache.clients, s.cache.clients.Keys)
            && |OpenClients(s)| == |s.cache.clients.Keys|
  {
    ClientsConserved(l, EMPTY, run);
    var s := Exec(l, EMPTY, run);
    var keys := s.cache.clients.Keys;
    ClientsOfSize(s.cache.clients, keys);
    forall k: nat ensures k in OpenClients(s) <==> k in ClientsOf(s.cache.clients, keys) {
      if k in OpenClients(s) {
        assert Holds(s.cache, k);
      }
      if k in ClientsOf(s.cache.clients, keys) {
        assert Holds(s.cache, k);
      }
    }
  }

  /** The providers whose pending calls connect in a run. */
  function Connects(l: Limits, s: System, run: seq<Event>): (r: set<string>)
    decreases run
  {
    if run == [] then {}
    else
      (if run[0].Connected? && Enabled(s, run[0]) then {s.pending[run[0].i].provider} else {})
      + Connects(l, Next(l, s, run[0]), run[1..])
  }

  /** Only calls that are in flight go on. */
  predicate Draining(run: seq<Event>) {
    forall e :: e in run ==> e.Connected? || e.ConnectFailed?
  }

  lemma {:induction false} DrainKeys(l: Limits, s: System, run: seq<Event>)
    requires Draining(run)
    ensures Exec(l, s, run).cache.clients.Keys == s.cache.clients.Keys + Connects(l, s, run)
    decreases run
  {
    if run != [] {
      assert run[0] in run;
      assert Next(l, s, run[0]).cache.clients.Keys ==
             s.cache.clients.Keys
             + if run[0].Connected? && Enabled(s, run[0]) then {s.pending[run[0].i].provider} else {};
      DrainKeys(l, Next(l, s, run[0]), run[1..]);
    }
  }

  lemma {:induction false} ExecConcat(l: Limits, s: System, a: seq<Event>, b: seq<Event>)
    ensures Exec(l, s, a + b) == Exec(l, Exec(l, s, a), b)
    decreases a
  {
    if a == [] {
      assert a + b == b;
    } else {
      assert (a + b)[1..] == a[1..] + b;
      ExecConcat(l, Next(l, s, a[0]), a[1..], b);
    }
  }

  /** A shutdown does not wait for the calls in flight: once they are through, one client stays open
      for every provider one of them has connected, so none if and only if none has. */
  lemma OpenAfterShutdown(l: Limits, before: seq<Event>, after: seq<Event>)
    requires Draining(after)
    ensures var s := Next(l, Exec(l, EMPTY, before), Shutdown);
            var t := Exec(l, s, after);
            && |OpenClients(t)| == |Connects(l, s, after)|
            && (OpenClients(t) == {} <==> Connects(l, s, after) == {})
  {
    var s := Next(l, Exec(l, EMPTY, before), Shutdown);
    ShutdownIsRun(l, before, after);
    OpenAreCached(l, before + [Shutdown] + after);
    DrainKeys(l, s, after);
    assert Exec(l, s, after).cache.clients.Keys == Connects(l, s, after);
  }

  lemma ShutdownIsRun(l: Limits, before: seq<Event>, after: seq<Event>)
    ensures Exec(l, EMPTY, before + [Shutdown] + after) == Exec(l, Next(l, Exec(l, EMPTY, before), Shutdown), after)
  {
    ExecConcat(l, EMPTY, before, [Shutdown] + after);
    assert before + [Shutdown] + after == before + ([Shutdown] + after);
    assert ([Shutdown] + after)[1..] == after;
  }

  // ---------------------------------------------------------------- least recently used first

  /** The list is ordered by the time of the last access, none later than `clock`. */
  ghost predicate Ordered(c: Cache, clock: int) {
    && Linked(c)
    && (forall p :: p in c.clients ==> c.clients[p].lastAccess <= clock)
    && (forall i, j :: 0 <= i < j < |c.lru| && c.lru[i] in c.clients && c.lru[j] in c.clients ==>
          c.clients[c.lru[i]].lastAccess <= c.clients[c.lru[j]].lastAccess)
  }

  /** Removing keeps the order of what is left. */
  lemma {:induction false} WithoutOrder(s: seq<string>, p: string, j: nat) returns (k: nat)
    requires j < |Without(s, p)|
    ensures j <= k < |s| && s[k] == Without(s, p)[j]
    ensures forall i :: 0 <= i < j ==> exists m :: 0 <= m < k && s[m] == Without(s, p)[i]
  {
    if s[0] == p {
      var k' := WithoutOrder(s[1..], p, j);
      k := k' + 1;
      forall i | 0 <= i < j ensures exists m :: 0 <= m < k && s[m] == Without(s, p)[i] {
        var m :| 0 <= m < k' && s[1..][m] == Without(s[1..], p)[i];
        assert s[m + 1] == Without(s, p)[i];
      }
    } else if j == 0 {
      k := 0;
    } else {
      var k' := WithoutOrder(s[1..], p, j - 1);
      k := k' + 1;
      forall i | 0 <= i < j ensures exists m :: 0 <= m < k && s[m] == Without(s, p)[i] {
        if i == 0 {
          assert s[0] == Without(s, p)[0];
        } else {
          var m :| 0 <= m < k' && s[1..][m] == Without(s[1..], p)[i - 1];
          assert s[m + 1] == Without(s, p)[i];
        }
      }
    }
  }

  lemma WithoutOrdered(c: Cache, p: string, clock: int, i: nat, j: nat)
    requires Ordered(c, clock) && i < j < |Without(c.lru, p)|
    ensures var w := Without(c.lru, p);
            w[i] in c.clients && w[j] in c.clients && c.clients[w[i]].lastAccess <= c.clients[w[j]].lastAccess
  {
    var w := Without(c.lru, p);
    var k := WithoutOrder(c.lru, p, j);
    var m :| 0 <= m < k && c.lru[m] == w[i];
    assert c.lru[m] in c.lru && c.lru[k] in c.lru;
  }

  lemma TouchOrdered(c: Cache, p: string, clock: int, now: int)
    requires Ordered(c, clock) && p in c.clients && clock <= now
    ensures Ordered(Touch(c, p, now), now)
  {
    TouchLinked(c, p, now);
    var r, w := Touch(c, p, now), Without(c.lru, p);
    forall i, j | 0 <= i < j < |r.lru| && r.lru[i] in r.clients && r.lru[j] in r.clients
      ensures r.clients[r.lru[i]].lastAccess <= r.clients[r.lru[j]].lastAccess
    {
      if j < |w| {
        WithoutOrdered(c, p, clock, i, j);
        assert r.lru[i] == w[i] && r.lru[j] == w[j] && w[i] in w && w[j] in w;
      }
    }
  }

  lemma DropOrdered(c: Cache, p: string, clock: int)
    requires Ordered(c, clock) && p in c.clients
    ensures Ordered(Drop(c, p), clock)
  {
    DropLinked(c, p);
    var r, w := Drop(c, p), Without(c.lru, p);
    forall i, j | 0 <= i < j < |r.lru| && r.lru[i] in r.clients && r.lru[j] in r.clients
      ensures r.clients[r.lru[i]].lastAccess <= r.clients[r.lru[j]].lastAccess
    {
      WithoutOrdered(c, p, clock, i, j);
    }
  }

  lemma MakeRoomOrdered(l: Limits, c: Cache, clock: int)
    requires Ordered(c, clock)
    ensures Ordered(MakeRoom(l, c), clock)
  {
    if c.lru != [] && c.lru[0] in c.clients { DropOrdered(c, c.lru[0], clock); }
  }

  lemma BeginOrdered(l: Limits, c: Cache, p: string, hash: string, clock: int, now: int)
    requires Ordered(c, clock) && clock <= now
    ensures Ordered(Begin(l, c, p, hash, now).0, now)
  {
    if p in c.clients {
      TouchOrdered(c, p, clock, now);
      DropOrdered(c, p, clock);
      MakeRoomOrdered(l, Drop(c, p), clock);
    } else {
      MakeRoomOrdered(l, c, clock);
    }
  }

  lemma InsertOrdered(c: Cache, p: string, hash: string, client: nat, clock: int, now: int)
    requires Ordered(c, clock) && clock <= now
    ensures Ordered(Insert(c, p, hash, client, now).0, now)
  {
    if p in c.clients {
      TouchOrdered(c.(closed := c.closed + {client}), p, clock, now);
    } else {
      assert p !in c.lru;
    }
  }

  lemma OrderedStep(l: Limits, s: System, e: Event)
    requires Ordered(s.cache, s.clock)
    ensures Ordered(Next(l, s, e).cache, Next(l, s, e).clock)
  {
    if Enabled(s, e) {
      match e
      case Lookup(req, now) =>
        if req.provider in s.cache.clients { TouchOrdered(s.cache, req.provider, s.clock, now); }
      case Start(req, now) => BeginOrdered(l, s.cache, req.provider, req.hash, s.clock, now);
      case Connected(i, now) =>
        InsertOrdered(s.cache, s.pending[i].provider, s.pending[i].hash, s.issued, s.clock, now);
      case ConnectFailed(_) =>
      case EvictClient(p) => if p in s.cache.clients { DropOrdered(s.cache, p, s.clock); }
      case Shutdown =>
    }
  }

  lemma {:induction false} OrderedRun(l: Limits, s: System, run: seq<Event>)
    requires Ordered(s.cache, s.clock)
    ensures Ordered(Exec(l, s, run).cache, Exec(l, s, run).clock)
    decreases run
  {
    if run != [] {
      OrderedStep(l, s, run[0]);
      OrderedRun(l, Next(l, s, run[0]), run[1..]);
    }
  }

  /** What making room evicts from an ordered cache has not been used for longest. */
  lemma EvictedOldest(l: Limits, c: Cache, clock: int, p: string)
    requires Ordered(c, clock) && p in c.clients && p !in MakeRoom(l, c).clients
    ensures forall q :: q in c.clients ==> c.clients[p].lastAccess <= c.clients[q].lastAccess
  {
    assert p == c.lru[0];
    forall q | q in c.clients ensures c.clients[p].lastAccess <= c.clients[q].lastAccess {
      var j :| 0 <= j < |c.lru| && c.lru[j] == q;
    }
  }

  /** In every run, map and list agree, and a client that a call for another provider evicts is, of
      all the others, one that has not been used for longest. */
  lemma EvictsLeastRecentlyUsed(l: Limits, run: seq<Event>, req: Request, now: int, p: string)
    ensures var c := Exec(l, EMPTY, run).cache;
            && Linked(c)
            && (p in c.clients && p != req.provider && p !in Begin(l, c, req.provider, req.hash, now).0.clients ==>
                forall q :: q in c.clients && q != req.provider ==> c.clients[p].lastAccess <= c.clients[q].lastAccess)
  {
    OrderedRun(l, EMPTY, run);
    var s := Exec(l, EMPTY, run);
    var c := s.cache;
    if p in c.clients && p != req.provider && p !in Begin(l, c, req.provider, req.hash, now).0.clients {
      if req.provider in c.clients {
        DropOrdered(c, req.provider, s.clock);
        EvictedOldest(l, Drop(c, req.provider), s.clock, p);
      } else {
        EvictedOldest(l, c, s.clock, p);
      }
    }
  }

  // ---------------------------------------------------------------- how large the cache gets

  /** No more than `width` calls are between their sections at any time. */
  predicate Width(l: Limits, s: System, run: seq<Event>, width: nat)
    decreases run
  {
    |s.pending| <= width && (run == [] || Width(l, Next(l, s, run[0]), run[1..], width))
  }

  lemma BeginSize(l: Limits, c: Cache, p: string, hash: string, now: int)
    requires Linked(c) && l.maxSize > 0
    ensures var r := Begin(l, c, p, hash, now);
            |r.0.lru| <= |c.lru| && (r.1.None? ==> |r.0.lru| < l.maxSize || |r.0.lru| < |c.lru|)
  {
    if p in c.clients {
      TouchLinked(c, p, now);
      DropLinked(c, p);
      MakeRoomLinked(l, Drop(c, p));
    } else {
      MakeRoomLinked(l, c);
    }
  }

  lemma SizeStep(l: Limits, s: System, e: Event)
    requires l.maxSize > 0 && Linked(s.cache)
    ensures var t := Next(l, s, e);
            || |t.cache.lru| + |t.pending| <= |s.cache.lru| + |s.pending|
            || (|t.cache.lru| < l.maxSize && |t.pending| == |s.pending| + 1)
  {
    if Enabled(s, e) {
      match e
      case Lookup(req, now) =>
        if req.provider in s.cache.clients { TouchLinked(s.cache, req.provider, now); }
      case Start(req, now) => BeginSize(l, s.cache, req.provider, req.hash, now);
      case Connected(i, now) =>
        if s.pending[i].provider in s.cache.clients { TouchLinked(s.cache, s.pending[i].provider, now); }
      case ConnectFailed(_) =>
      case EvictClient(p) => if p in s.cache.clients { DropLinked(s.cache, p); }
      case Shutdown =>
    }
  }

  lemma {:induction false} SizeRun(l: Limits, s: System, run: seq<Event>, width: nat)
    requires l.maxSize > 0 && Ordered(s.cache, s.clock) && Width(l, s, run, width)
    requires |s.cache.lru| + |s.pending| <= l.maxSize - 1 + width
    ensures |Exec(l, s, run).cache.lru| <= l.maxSize - 1 + width
    decreases run
  {
    if run != [] {
      OrderedStep(l, s, run[0]);
      SizeStep(l, s, run[0]);
      SizeRun(l, Next(l, s, run[0]), run[1..], width);
    }
  }

  /** The bound the code really keeps: since the lock is released while connecting, a cache
      limited to `maxSize` holds at most `maxSize - 1` clients plus one per overlapping
      call, so at most `maxSize` when calls do not overlap. */
  lemma SizeBound(l: Limits, run: seq<Event>, width: nat)
    requires l.maxSize > 0 && Width(l, EMPTY, run, width)
    ensures |Exec(l, EMPTY, run).cache.clients| <= l.maxSize - 1 + width
  {
    SizeRun(l, EMPTY, run, width);
    OrderedRun(l, EMPTY, run);
    SizesAgree(Exec(l, EMPTY, run).cache);
  }

  /** Providers with distinct names. */
  function Name(n: nat): (p: string) {
    seq(n, _ => 'p')
  }

  /** The first `n` providers are cached and the next `k` are connecting. */
  ghost predicate Filled(s: System, n: nat, k: nat) {
    && s.clock == 0 && Linked(s.cache) && |s.cache.lru| == n
    && (forall p :: p in s.cache.clients <==> |p| < n && p == Name(|p|))
    && |s.pending| == k && forall i :: 0 <= i < k ==> s.pending[i] == Request(Name(n + i), "")
  }

  lemma StartFilled(l: Limits, s: System, n: nat, k: nat)
    requires Filled(s, n, k) && n < l.maxSize
    ensures Filled(Next(l, s, Start(Request(Name(n + k), ""), 0)), n, k + 1)
  {
    SizesAgree(s.cache);
    var req := Request(Name(n + k), "");
    assert |Name(n + k)| == n + k;
    forall i | 0 <= i < k ensures s.pending[i] != req {
      assert |Name(n + i)| == n + i;
    }
    assert Next(l, s, Start(req, 0)) == s.(pending := s.pending + [req]);
  }

  lemma ConnectFilled(l: Limits, s: System, n: nat, k: nat)
    requires Filled(s, n, k) && k > 0
    ensures Filled(Next(l, s, Connected(0, 0)), n + 1, k - 1)
  {
    var t := Next(l, s, Connected(0, 0));
    assert s.pending[0] == Request(Name(n), "") && |Name(n)| == n;
    assert t.cache.lru == s.cache.lru + [Name(n)];
    assert t.cache.clients.Keys == s.cache.clients.Keys + {Name(n)};
    assert t.pending == s.pending[1..];
    forall i | 0 <= i < k - 1 ensures t.pending[i] == Request(Name(n + 1 + i), "") {
      assert s.pending[i + 1] == Request(Name(n + (i + 1)), "");
    }
  }

  /** The run stays within the width and fills the cache to the bound. */
  ghost predicate Fills(l: Limits, s: System, run: seq<Event>, width: nat)
    requires l.maxSize > 0
  {
    Width(l, s, run, width) && Filled(Exec(l, s, run), l.maxSize - 1 + width, 0)
  }

  lemma FillsAfter(l: Limits, s: System, e: Event, rest: seq<Event>, width: nat)
    requires l.maxSize > 0 && |s.pending| <= width && Fills(l, Next(l, s, e), rest, width)
    ensures Fills(l, s, [e] + rest, width)
  {
    assert ([e] + rest)[1..] == rest;
  }

  /** The run that fills the cache up to one below its limit, one call at a time, then starts
      `width` calls at once and lets them all connect. */
  lemma {:induction false} Climb(l: Limits, s: System, n: nat, k: nat, width: nat) returns (run: seq<Event>)
    requires l.maxSize > 0 && width > 0 && Filled(s, n, k) && k <= width
    requires n < l.maxSize - 1 ==> k <= 1
    requires n >= l.maxSize ==> n + k == l.maxSize - 1 + width
    ensures Fills(l, s, run, width)
    decreases l.maxSize + width - n, width - k
  {
    if n >= l.maxSize && k == 0 {
      run := [];
    } else if if n < l.maxSize - 1 then k == 0 else n == l.maxSize - 1 && k < width {
      var e := Start(Request(Name(n + k), ""), 0);
      StartFilled(l, s, n, k);
      var rest := Climb(l, Next(l, s, e), n, k + 1, width);
      FillsAfter(l, s, e, rest, width);
      run := [e] + rest;
    } else {
      var e := Connected(0, 0);
      ConnectFilled(l, s, n, k);
      var rest := Climb(l, Next(l, s, e), n + 1, k - 1, width);
      FillsAfter(l, s, e, rest, width);
      run := [e] + rest;
    }
  }

  /** The bound is tight for every limit and every degree of overlap, so the limit itself is kept
      exactly when calls never overlap. */
  lemma SizeBoundReached(l: Limits, width: nat) returns (run: seq<Event>)
    requires l.maxSize > 0 && width > 0
    ensures Width(l, EMPTY, run, width)
    ensures |Exec(l, EMPTY, run).cache.clients| == l.maxSize - 1 + width
  {
    run := Climb(l, EMPTY, 0, 0, width);
    SizesAgree(Exec(l, EMPTY, run).cache);
  }

  // ---------------------------------------------------------------- whose client is returned

  /** At most one call per provider is between its sections. */
  predicate OnePerProvider(s: System) {
    forall i, j :: 0 <= i < j < |s.pending| ==> s.pending[i].provider != s.pending[j].provider
  }

  predicate NeverOverlapping(l: Limits, s: System, run: seq<Event>)
    decreases run
  {
    OnePerProvider(s) && (run == [] || NeverOverlapping(l, Next(l, s, run[0]), run[1..]))
  }

  /** No client is cached for a provider that is being connected. */
  predicate SlotsFree(s: System) {
    forall i :: 0 <= i < |s.pending| ==> s.pending[i].provider !in s.cache.clients
  }

  lemma SlotsFreeStep(l: Limits, s: System, e: Event)
    requires SlotsFree(s) && OnePerProvider(s) && OnePerProvider(Next(l, s, e))
    ensures SlotsFree(Next(l, s, e))
  {
  }

  lemma {:induction false} SlotsFreeRun(l: Limits, s: System, run: seq<Event>)
    requires SlotsFree(s) && NeverOverlapping(l, s, run)
    ensures SlotsFree(Exec(l, s, run))
    decreases run
  {
    if run != [] {
      SlotsFreeStep(l, s, run[0]);
      SlotsFreeRun(l, Next(l, s, run[0]), run[1..]);
    }
  }

  /** As long as no two configurations of one provider are connected at the same time, a
      call gets the client it opened, with the hash it asked for. */
  lemma OwnClientReturned(l: Limits, run: seq<Event>, i: nat, now: int)
    requires NeverOverlapping(l, EMPTY, run)
    requires var s := Exec(l, EMPTY, run); i < |s.pending|
    ensures var s := Exec(l, EMPTY, run);
            var req := s.pending[i];
            var r := Insert(s.cache, req.provider, req.hash, s.issued, now);
            r.1 == s.issued && r.0.clients[req.provider] == Entry(s.issued, req.hash, now)
  {
    SlotsFreeRun(l, EMPTY, run);
  }

  /** Otherwise a call can be handed a client of the other configuration: exactly when its
      slot was filled meanwhile under another hash. */
  lemma WrongHashIff(c: Cache, req: Request, client: nat, now: int)
    ensures var r := Insert(c, req.provider, req.hash, client, now);
            && req.provider in r.0.clients && r.1 == r.0.clients[req.provider].client
            && (r.0.clients[req.provider].hash != req.hash <==>
                req.provider in c.clients && c.clients[req.provider].hash != req.hash)
  {
  }

  /** The client an event hands to its caller. */
  function Returned(l: Limits, s: System, e: Event): (client: Option<nat>)
    requires Enabled(s, e)
  {
    match e
    case Lookup(req, now) => TryGet(l, s.cache, req.provider, req.hash, now).1
    case Start(req, now) => Begin(l, s.cache, req.provider, req.hash, now).1
    case Connected(i, now) => Some(Insert(s.cache, s.pending[i].provider, s.pending[i].hash, s.issued, now).1)
    case _ => None
  }

  /** After every run, a call that does not connect is handed a client if and only if one is cached for
      its provider under its hash and has not been idle too long, and then it is that one.  The
      first look ignores a limit that is not positive, the second one that is zero. */
  lemma HitIff(l: Limits, run: seq<Event>, req: Request, now: int)
    ensures var s := Exec(l, EMPTY, run);
            var hit := req.provider in s.cache.clients && s.cache.clients[req.provider].hash == req.hash;
            && (Enabled(s, Lookup(req, now)) ==>
                Returned(l, s, Lookup(req, now)) ==
                if hit && (l.idleTTL <= 0 || now <= s.cache.clients[req.provider].lastAccess + l.idleTTL)
                then Some(s.cache.clients[req.provider].client) else None)
            && (Enabled(s, Start(req, now)) ==>
                Returned(l, s, Start(req, now)) ==
                if hit && (l.idleTTL == 0 || now <= s.cache.clients[req.provider].lastAccess + l.idleTTL)
                then Some(s.cache.clients[req.provider].client) else None)
  {
  }

  /** A client that is handed out again counts as used: it moves to the far end of the list and carries
      the time of the call, and every other entry is as before. */
  lemma HitTouches(l: Limits, run: seq<Event>, e: Event)
    requires e.Lookup? || e.Start?
    requires Enabled(Exec(l, EMPTY, run), e) && Returned(l, Exec(l, EMPTY, run), e).Some?
    ensures var s := Exec(l, EMPTY, run);
            var c, d, p := s.cache, Next(l, s, e).cache, e.req.provider;
            && d.clients == c.clients[p := Entry(c.clients[p].client, c.clients[p].hash, e.now)]
            && d.lru != [] && d.lru[|d.lru| - 1] == p && d.closed == c.closed && Next(l, s, e).clock == e.now
  {
  }

  /** When a call has to connect, exactly its own stale client and, if the cache is limited and the
      others fill it, one of them are closed and removed. */
  lemma MissMakesRoom(l: Limits, run: seq<Event>, req: Request, now: int)
    ensures var c := Exec(l, EMPTY, run).cache;
            var r := Begin(l, c, req.provider, req.hash, now);
            var others := c.clients.Keys - {req.provider};
            r.1.None? ==>
              && req.provider !in r.0.clients && r.0.clients.Keys <= others
              && (r.0.clients.Keys == others <==> l.maxSize <= 0 || |others| < l.maxSize)
              && |r.0.clients.Keys| >= |others| - 1
  {
    OrderedRun(l, EMPTY, run);
    var c := Exec(l, EMPTY, run).cache;
    if req.provider in c.clients {
      DropLinked(c, req.provider);
      assert Drop(c, req.provider).clients.Keys == c.clients.Keys - {req.provider};
      MakeRoomKeys(l, Drop(c, req.provider));
    } else {
      assert c.clients.Keys == c.clients.Keys - {req.provider};
      MakeRoomKeys(l, c);
    }
  }

  lemma MakeRoomKeys(l: Limits, c: Cache)
    requires Linked(c)
    ensures var r := MakeRoom(l, c).clients.Keys;
            && r <= c.clients.Keys && |r| >= |c.clients.Keys| - 1
            && (r == c.clients.Keys <==> l.maxSize <= 0 || |c.clients.Keys| < l.maxSize)
  {
    SizesAgree(c);
    assert |c.clients| == |c.clients.Keys|;
    if c.lru != [] {
      assert c.lru[0] in c.lru;
      assert Drop(c, c.lru[0]).clients.Keys == c.clients.Keys - {c.lru[0]};
    }
  }

  /** Evicting a provider closes its client and removes it, and touches no other. */
  lemma EvictRemoves(l: Limits, s: System, p: string)
    ensures var c, d := s.cache, Next(l, s, EvictClient(p)).cache;
            && d.clients == c.clients - {p}
            && d.closed == c.closed + (if p in c.clients then {c.clients[p].client} else {})
  {
    if p !in s.cache.clients {
      assert s.cache.clients - {p} == s.cache.clients;
    }
  }

  /** After every run, whatever client a call is handed is cached and open at that moment. */
  lemma ReturnedOpen(l: Limits, run: seq<Event>, e: Event)
    requires Enabled(Exec(l, EMPTY, run), e)
    ensures var s := Exec(l, EMPTY, run);
            var t, client := Next(l, s, e), Returned(l, s, e);
            client.Some? ==> Holds(t.cache, client.value) && client.value !in t.cache.closed
  {
    var s := Exec(l, EMPTY, run);
    ClientsConserved(l, EMPTY, run);
    ClientsConserved(l, s, [e]);
    var t, client := Next(l, s, e), Returned(l, s, e);
    assert Exec(l, s, [e]) == t by {
      assert [e][1..] == [];
    }
    if client.Some? {
      var p := if e.Connected? then s.pending[e.i].provider else e.req.provider;
      assert p in t.cache.clients && t.cache.clients[p].client == client.value;
    }
  }

  lemma ExecThree(l: Limits, s: System, a: Event, b: Event, c: Event)
    ensures Exec(l, s, [a, b, c]) == Next(l, Next(l, Next(l, s, a), b), c)
  {
    assert [a, b, c][1..] == [b, c] && [b, c][1..] == [c] && [c][1..] == [];
    assert Exec(l, s, [a, b, c]) == Exec(l, Next(l, s, a), [b, c]);
    assert Exec(l, Next(l, s, a), [b, c]) == Exec(l, Next(l, Next(l, s, a), b), [c]);
  }

  /** And a wrong client is handed out: the new configuration is requested while the old one
      connects, and its call gets the client of the old one. */
  lemma WrongHashReached()
    ensures var run := [Start(Request("p", "old"), 0), Start(Request("p", "new"), 0), Connected(0, 0)];
            var l := Limits(0, 0);
            var s := Exec(l, EMPTY, run);
            && s.pending == [Request("p", "new")] && Enabled(s, Connected(0, 0))
            && Returned(l, s, Connected(0, 0)) == Some(0)
            && Next(l, s, Connected(0, 0)).cache.clients == map["p" := Entry(0, "old", 0)]
  {
    var l := Limits(0, 0);
    var a, b := Request("p", "old"), Request("p", "new");
    var run := [Start(a, 0), Start(b, 0), Connected(0, 0)];
    assert a.hash[0] != b.hash[0];
    var s1 := Next(l, EMPTY, run[0]);
    assert s1 == EMPTY.(pending := [a]);
    var s2 := Next(l, s1, run[1]);
    assert s2 == EMPTY.(pending := [a, b]);
    var s3 := Next(l, s2, run[2]);
    assert s3 == System(Cache(map["p" := Entry(0, "old", 0)], ["p"], {}), [b], 1, 0);
    ExecThree(l, EMPTY, run[0], run[1], run[2]);
  }
}
