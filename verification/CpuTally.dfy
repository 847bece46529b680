/** Sockets, cores and threads counted from the processor records of /proc/cpuinfo. */
module CpuTally {
  import opened Sorting
  import opened Sums

  datatype CpuInfo = CpuInfo(id: string, vendorID: string, modelName: string, physicalID: string, coreID: string)

  datatype CPU = CPU(id: string, vendorID: string, modelName: string,
                     coreCount: nat, efficiencyCoreCount: nat, threadCount: nat)

  // ---------------------------------------------------------------- what is counted

  /** A record without a core id counts as a core of its own processor id. */
  function CoreKey(c: CpuInfo): string {
    c.physicalID + ":" + (if c.coreID != "" then c.coreID else c.id)
  }

  function Threads(infos: seq<CpuInfo>, socket: string): nat {
    if infos == [] then 0 else
      Threads(infos[..|infos| - 1], socket) + (if infos[|infos| - 1].physicalID == socket then 1 else 0)
  }

  function CoreThreads(infos: seq<CpuInfo>, socket: string, core: string): nat {
    if infos == [] then 0 else
      var c := infos[|infos| - 1];
      CoreThreads(infos[..|infos| - 1], socket, core)
      + (if c.physicalID == socket && CoreKey(c) == core then 1 else 0)
  }

  function Sockets(infos: seq<CpuInfo>): set<string> { set c | c in infos :: c.physicalID }

  function Cores(infos: seq<CpuInfo>, socket: string): set<string> {
    set c | c in infos && c.physicalID == socket :: CoreKey(c)
  }

  /** The cores of a socket that run a single thread. */
  function SingleCores(infos: seq<CpuInfo>, socket: string): set<string> {
    set core | core in Cores(infos, socket) && CoreThreads(infos, socket, core) == 1
  }

  /** The first record of a socket. */
  function First(infos: seq<CpuInfo>, socket: string): CpuInfo
    requires socket in Sockets(infos)
  {
    var front := infos[..|infos| - 1];
    assert forall c :: c in infos <==> c in front || c == infos[|infos| - 1];
    if socket in Sockets(front) then First(front, socket) else infos[|infos| - 1]
  }

  /** The line reported for a socket.  When every core runs a single thread, none of them is
      an efficiency core. */
  function Summary(infos: seq<CpuInfo>, socket: string): CPU
    requires socket in Sockets(infos)
  {
    var first, single := First(infos, socket), |SingleCores(infos, socket)|;
    var cores := |Cores(infos, socket)|;
    CPU(socket, first.vendorID, first.modelName, cores, if single == cores then 0 else single, Threads(infos, socket))
  }

  /** Records of one socket share a core exactly if their core ids agree, a missing core id
      being replaced by the processor id. */
  lemma SameCore(c: CpuInfo, d: CpuInfo)
    requires c.physicalID == d.physicalID
    ensures CoreKey(c) == CoreKey(d) <==>
            (if c.coreID == "" then c.id else c.coreID) == (if d.coreID == "" then d.id else d.coreID)
  {
    var n := |c.physicalID + ":"|;
    assert CoreKey(c)[n..] == if c.coreID == "" then c.id else c.coreID;
    assert CoreKey(d)[n..] == if d.coreID == "" then d.id else d.coreID;
  }

  /** Threads of two lists add up; a single record is one thread of its socket and its core. */
  lemma {:induction false} ThreadsLaw(xs: seq<CpuInfo>, ys: seq<CpuInfo>, c: CpuInfo, socket: string, core: string)
    ensures Threads(xs + ys, socket) == Threads(xs, socket) + Threads(ys, socket)
    ensures CoreThreads(xs + ys, socket, core) == CoreThreads(xs, socket, core) + CoreThreads(ys, socket, core)
    ensures Threads([c], socket) == (if c.physicalID == socket then 1 else 0) && Threads([], socket) == 0
    ensures CoreThreads([c], socket, core) == if c.physicalID == socket && CoreKey(c) == core then 1 else 0
    ensures CoreThreads([], socket, core) == 0
    decreases |ys|
  {
    assert [c][..0] == [];
    if ys == [] {
      assert xs + ys == xs;
    } else {
      assert (xs + ys)[..|xs + ys| - 1] == xs + ys[..|ys| - 1];
      ThreadsLaw(xs, ys[..|ys| - 1], c, socket, core);
    }
  }

  /** The record that names a socket is the earliest one of it. */
  lemma {:induction false} FirstIsEarliest(infos: seq<CpuInfo>, socket: string) returns (k: nat)
    requires socket in Sockets(infos)
    ensures k < |infos| && infos[k] == First(infos, socket) && infos[k].physicalID == socket
    ensures forall j :: 0 <= j < k ==> infos[j].physicalID != socket
  {
    var front := infos[..|infos| - 1];
    assert forall c :: c in infos <==> c in front || c == infos[|infos| - 1];
    if socket in Sockets(front) {
      k := FirstIsEarliest(front, socket);
    } else {
      k := |infos| - 1;
      forall j | 0 <= j < k ensures infos[j].physicalID != socket { assert infos[j] in front; }
    }
  }

  // ---------------------------------------------------------------- sums over cores

  ghost function Ones(m: map<string, nat>): set<string> { set k | k in m && m[k] == 1 }

  /** Keys that do not hold 1 hold at least 2. */
  lemma {:induction false} SumBounds(m: map<string, nat>)
    requires forall k :: k in m ==> m[k] >= 1
    ensures |m| <= SumOf(m)
    ensures 2 * |m| <= SumOf(m) + |Ones(m)|
    ensures |Ones(m)| <= |m|
    ensures |Ones(m)| == |m| ==> SumOf(m) == |m|
    decreases |m|
  {
    if m == map[] {
      assert Ones(m) == {};
    } else {
      var k :| k in m && SumOf(m) == m[k] + SumOf(m - {k});
      var rest := m - {k};
      assert m.Keys == rest.Keys + {k};
      SumBounds(rest);
      if m[k] == 1 { assert Ones(m) == Ones(rest) + {k}; } else { assert Ones(m) == Ones(rest); }
    }
  }

  // ---------------------------------------------------------------- the counts add up

  ghost function CoreMap(infos: seq<CpuInfo>, socket: string): map<string, nat> {
    map core | core in Cores(infos, socket) :: CoreThreads(infos, socket, core)
  }

  lemma Snoc(infos: seq<CpuInfo>, c: CpuInfo)
    ensures (infos + [c])[..|infos|] == infos
    ensures Sockets(infos + [c]) == Sockets(infos) + {c.physicalID}
    ensures forall p :: Cores(infos + [c], p) ==
                        if p == c.physicalID then Cores(infos, p) + {CoreKey(c)} else Cores(infos, p)
  {
    hide CoreKey;
    assert forall d :: d in infos + [c] <==> d in infos || d == c;
    forall p
      ensures Cores(infos + [c], p) ==
              if p == c.physicalID then Cores(infos, p) + {CoreKey(c)} else Cores(infos, p)
    {
      assert forall k :: k in Cores(infos, p) ==> exists d :: d in infos && d.physicalID == p && k == CoreKey(d);
    }
  }

  /** A record adds one thread to its own core and to no other. */
  lemma CoreMapStep(infos: seq<CpuInfo>, c: CpuInfo, socket: string)
    requires forall core :: CoreThreads(infos, socket, core) > 0 <==> core in Cores(infos, socket)
    ensures var m := CoreMap(infos, socket);
      CoreMap(infos + [c], socket) ==
        if c.physicalID != socket then m
        else m[CoreKey(c) := (if CoreKey(c) in m then m[CoreKey(c)] else 0) + 1]
    ensures forall core :: CoreThreads(infos + [c], socket, core) > 0 <==> core in Cores(infos + [c], socket)
  {
    hide CoreKey, Cores;
    Snoc(infos, c);
    forall core ensures CoreThreads(infos + [c], socket, core) ==
        CoreThreads(infos, socket, core) + (if c.physicalID == socket && CoreKey(c) == core then 1 else 0) {}
  }

  lemma SumIncrement(m: map<string, nat>, k: string)
    ensures SumOf(m[k := (if k in m then m[k] else 0) + 1]) == SumOf(m) + 1
  {
    var m' := m[k := (if k in m then m[k] else 0) + 1];
    SumPick(m', k);
    if k in m {
      SumPick(m, k);
      assert m' - {k} == m - {k};
    } else {
      assert m' - {k} == m;
    }
  }

  lemma {:induction false} CoresHaveThreads(infos: seq<CpuInfo>, socket: string)
    ensures forall core :: CoreThreads(infos, socket, core) > 0 <==> core in Cores(infos, socket)
  {
    if infos != [] {
      var front, c := infos[..|infos| - 1], infos[|infos| - 1];
      assert infos == front + [c];
      CoresHaveThreads(front, socket);
      CoreMapStep(front, c, socket);
    }
  }

  /** The threads of a socket's cores are all the threads of the socket. */
  lemma {:induction false} CoresHoldThreads(infos: seq<CpuInfo>, socket: string)
    ensures SumOf(CoreMap(infos, socket)) == Threads(infos, socket)
  {
    hide CoreKey, CoreMap, CoreThreads;
    if infos == [] {
      EmptyCoreMap(socket);
    } else {
      var front, c := infos[..|infos| - 1], infos[|infos| - 1];
      assert infos == front + [c];
      CoresHoldThreads(front, socket);
      CoresHaveThreads(front, socket);
      CoreMapStep(front, c, socket);
      SumIncrement(CoreMap(front, socket), CoreKey(c));
    }
  }

  lemma EmptyCoreMap(socket: string)
    ensures CoreMap([], socket) == map[] && SumOf(CoreMap([], socket)) == 0
  {
  }

  /** Cores and threads of a socket: never more cores than threads, and two threads for
      every core that is not an efficiency core, exactly unless the count was zeroed. */
  lemma SummaryBounds(infos: seq<CpuInfo>, socket: string)
    requires socket in Sockets(infos)
    ensures var s, single := Summary(infos, socket), |SingleCores(infos, socket)|;
      && 1 <= s.coreCount <= s.threadCount
      && s.efficiencyCoreCount < s.coreCount
      && (single == s.coreCount ==> s.efficiencyCoreCount == 0 && s.threadCount == s.coreCount)
      && (single != s.coreCount ==> s.efficiencyCoreCount == single)
      && (2 * s.coreCount <= s.threadCount + s.efficiencyCoreCount <==> single != s.coreCount)
  {
    CoresHaveThreads(infos, socket);
    CoresHoldThreads(infos, socket);
    var m := CoreMap(infos, socket);
    assert Ones(m) == SingleCores(infos, socket);
    assert m.Keys == Cores(infos, socket);
    SumBounds(m);
    var c :| c in infos && c.physicalID == socket;
    assert CoreKey(c) in Cores(infos, socket);
    assert Cores(infos, socket) != {};
  }

  ghost function TotalThreads(cpus: seq<CPU>): nat {
    if cpus == [] then 0 else TotalThreads(cpus[..|cpus| - 1]) + cpus[|cpus| - 1].threadCount
  }

  /** Threads of the listed sockets. */
  ghost function ThreadsOf(infos: seq<CpuInfo>, sockets: seq<string>): nat {
    if sockets == [] then 0 else
      ThreadsOf(infos, sockets[..|sockets| - 1]) + Threads(infos, sockets[|sockets| - 1])
  }

  lemma {:induction false} ThreadsOfNone(sockets: seq<string>)
    ensures ThreadsOf([], sockets) == 0
  {
    if sockets != [] { ThreadsOfNone(sockets[..|sockets| - 1]); }
  }

  lemma {:induction false} ThreadsOfStep(infos: seq<CpuInfo>, c: CpuInfo, sockets: seq<string>)
    requires NoDuplicates(sockets)
    ensures ThreadsOf(infos + [c], sockets) == ThreadsOf(infos, sockets) + (if c.physicalID in sockets then 1 else 0)
  {
    assert (infos + [c])[..|infos|] == infos;
    if sockets != [] {
      var front, last := sockets[..|sockets| - 1], sockets[|sockets| - 1];
      ThreadsOfStep(infos, c, front);
      assert sockets == front + [last];
      assert last == c.physicalID ==> c.physicalID !in front;
    }
  }

  lemma {:induction false} ThreadsOfAll(infos: seq<CpuInfo>, sockets: seq<string>)
    requires NoDuplicates(sockets) && forall c :: c in infos ==> c.physicalID in sockets
    ensures ThreadsOf(infos, sockets) == |infos|
  {
    if infos == [] {
      ThreadsOfNone(sockets);
    } else {
      var front, c := infos[..|infos| - 1], infos[|infos| - 1];
      assert infos == front + [c];
      ThreadsOfAll(front, sockets);
      ThreadsOfStep(front, c, sockets);
    }
  }

  // ---------------------------------------------------------------- the report

  /** One line for each socket, in strictly ascending order of id. */
  ghost predicate Reports(infos: seq<CpuInfo>, cpus: seq<CPU>) {
    && (forall i, j :: 0 <= i < j < |cpus| ==> cpus[i].id != cpus[j].id && StringLeq(cpus[i].id, cpus[j].id))
    && (forall i :: 0 <= i < |cpus| ==> cpus[i].id in Sockets(infos) && cpus[i] == Summary(infos, cpus[i].id))
    && (forall p :: p in Sockets(infos) ==> exists i :: 0 <= i < |cpus| && cpus[i].id == p)
  }

  /** No thread is lost or counted twice: over all sockets they are the records. */
  lemma ThreadsConserved(infos: seq<CpuInfo>, cpus: seq<CPU>)
    requires Reports(infos, cpus)
    ensures TotalThreads(cpus) == |infos|
  {
    var ids := seq(|cpus|, i requires 0 <= i < |cpus| => cpus[i].id);
    TotalIsThreadsOf(infos, cpus, |cpus|);
    assert cpus[..|cpus|] == cpus && ids[..|cpus|] == ids;
    forall c | c in infos ensures c.physicalID in ids {
      assert c.physicalID in Sockets(infos);
      var i :| 0 <= i < |cpus| && cpus[i].id == c.physicalID;
      assert ids[i] == c.physicalID;
    }
    ThreadsOfAll(infos, ids);
  }

  lemma {:induction false} TotalIsThreadsOf(infos: seq<CpuInfo>, cpus: seq<CPU>, n: nat)
    requires Reports(infos, cpus) && n <= |cpus|
    ensures var ids := seq(|cpus|, i requires 0 <= i < |cpus| => cpus[i].id);
      TotalThreads(cpus[..n]) == ThreadsOf(infos, ids[..n])
  {
    if n > 0 {
      TotalIsThreadsOf(infos, cpus, n - 1);
      var ids := seq(|cpus|, i requires 0 <= i < |cpus| => cpus[i].id);
      assert cpus[..n][..n - 1] == cpus[..n - 1] && ids[..n][..n - 1] == ids[..n - 1];
    }
  }

  predicate StringLeq(a: string, b: string) {
    a == [] || (b != [] && (a[0] < b[0] || (a[0] == b[0] && StringLeq(a[1..], b[1..]))))
  }

  /** One string is the beginning of the other, or the first difference decides. */
  lemma {:induction false} StringLeqMeans(a: string, b: string)
    ensures StringLeq(a, b) <==>
            a <= b || exists k :: 0 <= k < |a| && k < |b| && a[..k] == b[..k] && a[k] < b[k]
  {
    if a != [] && b != [] && a[0] == b[0] {
      var c, d := a[1..], b[1..];
      StringLeqMeans(c, d);
      assert a == [a[0]] + c && b == [b[0]] + d;
      if k :| 0 <= k < |c| && k < |d| && c[..k] == d[..k] && c[k] < d[k] {
        assert a[..k + 1] == [a[0]] + c[..k] && b[..k + 1] == [b[0]] + d[..k];
        assert a[k + 1] < b[k + 1];
      }
      if k :| 0 <= k < |a| && k < |b| && a[..k] == b[..k] && a[k] < b[k] {
        assert k > 0 && c[..k - 1] == a[..k][1..] && d[..k - 1] == b[..k][1..];
        assert c[k - 1] < d[k - 1];
      }
    } else if a != [] && b != [] && a[0] < b[0] {
      assert a[..0] == b[..0];
    } else if a != [] && b != [] {
      forall k | 0 <= k < |a| && k < |b| && a[..k] == b[..k] ensures k == 0 {
        if k > 0 { SameFirst(a, b, k); }
      }
    }
  }

  lemma SameFirst(a: string, b: string, k: nat)
    requires 0 < k <= |a| && k <= |b| && a[..k] == b[..k]
    ensures a[0] == b[0]
  {
    assert a[..k][0] == a[0] && b[..k][0] == b[0];
  }

  lemma {:induction false} StringLeqTotal(a: string, b: string)
    ensures StringLeq(a, b) || StringLeq(b, a)
  {
    if a != [] && b != [] { StringLeqTotal(a[1..], b[1..]); }
  }

  lemma {:induction false} StringLeqTransitive(a: string, b: string, c: string)
    ensures StringLeq(a, b) && StringLeq(b, c) ==> StringLeq(a, c)
  {
    if a != [] && b != [] && c != [] { StringLeqTransitive(a[1..], b[1..], c[1..]); }
  }

  lemma StringLeqPreorder()
    ensures TotalPreorder(StringLeq)
  {
    forall a, b ensures StringLeq(a, b) || StringLeq(b, a) { StringLeqTotal(a, b); }
    forall a, b, c ensures StringLeq(a, b) && StringLeq(b, c) ==> StringLeq(a, c) { StringLeqTransitive(a, b, c); }
  }

  // ---------------------------------------------------------------- the tally as it runs

  ghost predicate Tracked(infos: seq<CpuInfo>, sockets: map<string, CPU>, cores: map<string, set<string>>,
                          threads: map<string, map<string, nat>>) {
    && sockets.Keys == cores.Keys == threads.Keys == Sockets(infos)
    && forall p :: p in Sockets(infos) ==> TrackedSocket(infos, p, sockets[p], cores[p], threads[p])
  }

  ghost predicate TrackedSocket(infos: seq<CpuInfo>, p: string, cpu: CPU, cores: set<string>, threads: map<string, nat>)
    requires p in Sockets(infos)
  {
    && cpu == CPU(p, First(infos, p).vendorID, First(infos, p).modelName, 0, 0, 0)
    && cores == Cores(infos, p)
    && threads == CoreMap(infos, p)
  }

  /** A line counts the distinct cores and the records of its socket, and the cores with one
      thread unless they are all like that, and names it after its first record. */
  ghost predicate Describes(infos: seq<CpuInfo>, s: CPU) {
    var single := set core | core in Cores(infos, s.id) && CoreThreads(infos, s.id, core) == 1;
    var cores := set c | c in infos && c.physicalID == s.id :: CoreKey(c);
    && s.id in Sockets(infos)
    && s.coreCount == |cores| && s.threadCount == Threads(infos, s.id)
    && s.efficiencyCoreCount == (if |single| == |cores| then 0 else |single|)
    && s.vendorID == First(infos, s.id).vendorID && s.modelName == First(infos, s.id).modelName
  }

  method LinuxCPUDetails(infos: seq<CpuInfo>) returns (result: seq<CPU>)
    ensures Reports(infos, result)
    ensures TotalThreads(result) == |infos|
    ensures forall i :: 0 <= i < |result| ==> Describes(infos, result[i])
  {
    var socketByID, coreBySocket, threadsByCoreBySocket := Track(infos);
    var rest := socketByID.Keys;
    while rest != {}
      invariant rest <= socketByID.Keys == Sockets(infos)
      invariant forall p :: p in socketByID && p !in rest ==> socketByID[p] == Summary(infos, p)
      invariant forall p :: p in rest ==>
        socketByID[p] == CPU(p, First(infos, p).vendorID, First(infos, p).modelName, 0, 0, 0)
    {
      var id :| id in rest;
      var s := Tally(infos, socketByID[id], coreBySocket[id], threadsByCoreBySocket[id]);
      socketByID := socketByID[id := s];
      rest := rest - {id};
    }
    result := InOrder(infos, socketByID);
    ThreadsConserved(infos, result);
    ReportMeans(infos, result);
  }

  lemma ReportMeans(infos: seq<CpuInfo>, cpus: seq<CPU>)
    requires Reports(infos, cpus)
    ensures forall i :: 0 <= i < |cpus| ==> Describes(infos, cpus[i])
  {
    hide Threads, CoreThreads, First;
  }

  /** One socket's counts. */
  method Tally(ghost infos: seq<CpuInfo>, s: CPU, cores: set<string>, threadsByCore: map<string, nat>) returns (r: CPU)
    requires s.id in Sockets(infos) && cores == Cores(infos, s.id) && threadsByCore == CoreMap(infos, s.id)
    requires s == CPU(s.id, First(infos, s.id).vendorID, First(infos, s.id).modelName, 0, 0, 0)
    ensures r == Summary(infos, s.id)
  {
    var coreCount := |cores|;
    var threadCount, efficiencyCoreCount := CountThreads(threadsByCore);
    CoresHoldThreads(infos, s.id);
    assert Ones(threadsByCore) == SingleCores(infos, s.id);
    r := s.(coreCount := coreCount, threadCount := threadCount,
            efficiencyCoreCount := if efficiencyCoreCount == coreCount then 0 else efficiencyCoreCount);
  }

  /** The cores of a socket, visited in any order. */
  method CountThreads(threadsByCore: map<string, nat>) returns (threadCount: nat, efficiencyCoreCount: nat)
    ensures threadCount == SumOf(threadsByCore) && efficiencyCoreCount == |Ones(threadsByCore)|
  {
    threadCount, efficiencyCoreCount := 0, 0;
    var rest := threadsByCore;
    while rest.Keys != {}
      invariant threadCount + SumOf(rest) == SumOf(threadsByCore)
      invariant efficiencyCoreCount + |Ones(rest)| == |Ones(threadsByCore)|
      decreases |rest|
    {
      var core :| core in rest.Keys;
      SumPick(rest, core);
      OnesWithout(rest, core);
      threadCount := threadCount + rest[core];
      if rest[core] == 1 {
        efficiencyCoreCount := efficiencyCoreCount + 1;
      }
      rest := rest - {core};
    }
    assert rest == map[] && Ones(rest) == {};
  }

  lemma OnesWithout(m: map<string, nat>, k: string)
    requires k in m
    ensures |Ones(m)| == |Ones(m - {k})| + (if m[k] == 1 then 1 else 0)
    ensures |m - {k}| < |m|
  {
    assert m.Keys == (m - {k}).Keys + {k};
    if m[k] == 1 { assert Ones(m) == Ones(m - {k}) + {k}; } else { assert Ones(m) == Ones(m - {k}); }
  }

  /** The records sorted into the three tracking maps. */
  method Track(infos: seq<CpuInfo>) returns (sockets: map<string, CPU>, cores: map<string, set<string>>,
                                             threads: map<string, map<string, nat>>)
    ensures Tracked(infos, sockets, cores, threads)
  {
    sockets, cores, threads := map[], map[], map[];
    for i := 0 to |infos|
      invariant Tracked(infos[..i], sockets, cores, threads)
    {
      assert infos[..i + 1] == infos[..i] + [infos[i]];
      sockets, cores, threads := TrackOne(infos[..i], infos[i], sockets, cores, threads);
    }
    assert infos[..|infos|] == infos;
  }

  method TrackOne(ghost infos: seq<CpuInfo>, c: CpuInfo, sockets0: map<string, CPU>, cores0: map<string, set<string>>,
                  threads0: map<string, map<string, nat>>)
      returns (sockets: map<string, CPU>, cores: map<string, set<string>>, threads: map<string, map<string, nat>>)
    requires Tracked(infos, sockets0, cores0, threads0)
    ensures Tracked(infos + [c], sockets, cores, threads)
  {
    hide TrackedSocket, Sockets;
    sockets, cores, threads := sockets0, cores0, threads0;
    var p := c.physicalID;
    Snoc(infos, c);
    TrackSame(infos, c, if p in sockets then sockets[p] else CPU(p, c.vendorID, c.modelName, 0, 0, 0),
              if p in cores then cores[p] else {}, if p in threads then threads[p] else map[]);
    if p !in sockets {
      sockets := sockets[p := CPU(p, c.vendorID, c.modelName, 0, 0, 0)];
      cores := cores[p := {}];
      threads := threads[p := map[]];
    }
    var core := p + ":" + (if c.coreID != "" then c.coreID else c.id);
    cores := cores[p := cores[p] + {core}];
    threads := threads[p := threads[p][core := (if core in threads[p] then threads[p][core] else 0) + 1]];
    forall q | q in Sockets(infos) && q != p ensures TrackedSocket(infos + [c], q, sockets[q], cores[q], threads[q]) {
      TrackOther(infos, c, q, sockets[q], cores[q], threads[q]);
    }
  }

  lemma TrackSame(infos: seq<CpuInfo>, c: CpuInfo, cpu: CPU, cores: set<string>, threads: map<string, nat>)
    requires c.physicalID in Sockets(infos) ==> TrackedSocket(infos, c.physicalID, cpu, cores, threads)
    requires c.physicalID !in Sockets(infos) ==>
               cpu == CPU(c.physicalID, c.vendorID, c.modelName, 0, 0, 0) && cores == {} && threads == map[]
    ensures c.physicalID in Sockets(infos + [c])
    ensures TrackedSocket(infos + [c], c.physicalID, cpu, cores + {CoreKey(c)},
                          threads[CoreKey(c) := (if CoreKey(c) in threads then threads[CoreKey(c)] else 0) + 1])
  {
    hide CoreKey, CoreMap, Cores, First, Sockets;
    Snoc(infos, c);
    TrackStep(infos, c, c.physicalID);
  }

  lemma TrackOther(infos: seq<CpuInfo>, c: CpuInfo, q: string, cpu: CPU, cores: set<string>, threads: map<string, nat>)
    requires q in Sockets(infos) && q != c.physicalID && TrackedSocket(infos, q, cpu, cores, threads)
    ensures q in Sockets(infos + [c]) && TrackedSocket(infos + [c], q, cpu, cores, threads)
  {
    hide CoreKey, CoreMap, Cores, First, Sockets;
    Snoc(infos, c);
    TrackStep(infos, c, q);
  }

  /** What one more record changes for a socket. */
  lemma TrackStep(infos: seq<CpuInfo>, c: CpuInfo, q: string)
    requires q in Sockets(infos + [c])
    ensures First(infos + [c], q) == if q in Sockets(infos) then First(infos, q) else c
    ensures q !in Sockets(infos) ==> Cores(infos, q) == {} && CoreMap(infos, q) == map[] && q == c.physicalID
    ensures Cores(infos + [c], q) == if q == c.physicalID then Cores(infos, q) + {CoreKey(c)} else Cores(infos, q)
    ensures var m := CoreMap(infos, q);
      CoreMap(infos + [c], q) ==
        if c.physicalID != q then m else m[CoreKey(c) := (if CoreKey(c) in m then m[CoreKey(c)] else 0) + 1]
  {
    hide CoreKey, CoreThreads;
    Snoc(infos, c);
    CoresHaveThreads(infos, q);
    CoreMapStep(infos, c, q);
    if q !in Sockets(infos) { assert Cores(infos, q) == {}; }
  }

  /** The socket ids, walked in any order and then sorted. */
  method SortedKeys(ids: set<string>) returns (sorted: seq<string>)
    ensures NoDuplicates(sorted) && Sorted(sorted, StringLeq)
    ensures forall k :: k in sorted <==> k in ids
  {
    var keys, rest := [], ids;
    while rest != {}
      invariant rest <= ids && NoDuplicates(keys)
      invariant forall k :: k in keys <==> k in ids && k !in rest
    {
      var k :| k in rest;
      keys := keys + [k];
      rest := rest - {k};
    }
    StringLeqPreorder();
    SortSorts(keys, StringLeq);
    SortKeeps(keys, StringLeq);
    sorted := Sort(keys, StringLeq);
    RearrangedNoDuplicates(keys, sorted);
  }

  /** The lines in order of their ids. */
  method InOrder(ghost infos: seq<CpuInfo>, sockets: map<string, CPU>) returns (result: seq<CPU>)
    requires sockets.Keys == Sockets(infos) && forall p :: p in sockets ==> sockets[p] == Summary(infos, p)
    ensures Reports(infos, result)
  {
    hide Summary, Sockets, StringLeq;
    var sorted := SortedKeys(sockets.Keys);
    result := [];
    for i := 0 to |sorted|
      invariant |result| == i
      invariant forall j :: 0 <= j < i ==> sorted[j] in sockets && result[j] == sockets[sorted[j]]
    {
      assert sorted[i] in sorted;
      result := result + [sockets[sorted[i]]];
    }
    forall i | 0 <= i < |result| ensures result[i].id == sorted[i] { SummaryId(infos, sorted[i]); }
    forall p | p in Sockets(infos) ensures exists i :: 0 <= i < |result| && result[i].id == p {
      assert p in sorted;
      var i :| 0 <= i < |sorted| && sorted[i] == p;
      assert result[i].id == p;
    }
  }

  lemma SummaryId(infos: seq<CpuInfo>, p: string)
    requires p in Sockets(infos)
    ensures Summary(infos, p).id == p
  {
  }
}
