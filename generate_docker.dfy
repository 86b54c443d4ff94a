/** generator/generate_docker.go: `kit generate docker`. For every service
    directory a Dockerfile is written, and the service gets an entry in
    docker-compose.yml whose host ports are the smallest ones, from 8800
    up, that no other entry uses. */
module DockerGen {
  import opened Wrappers
  import opened GoStrings

  /** `BuildService`. */
  datatype Build = Build(context: string, dockerFile: string)

  /** `DockerService`: one entry of the compose file. An entry read back
      from the file and one built by the generator are the same record
      here; a missing port list is the empty one. */
  datatype DockerService = DockerService(
    build: Build, restart: string, volumes: seq<string>, containerName: string, ports: seq<string>)

  /** The host side of a `host:container` port mapping. */
  function HostPort(mapping: string): string
  {
    Split(mapping, ':')[0]
  }

  function HostPorts(ps: seq<string>): (r: seq<string>)
    ensures |r| == |ps| && forall j :: 0 <= j < |ps| ==> r[j] == HostPort(ps[j])
  {
    if |ps| == 0 then [] else HostPorts(ps[..|ps| - 1]) + [HostPort(ps[|ps| - 1])]
  }

  /** Some entry maps the host port. */
  ghost predicate PortUsed(services: map<string, DockerService>, port: string)
  {
    exists n :: n in services && port in HostPorts(services[n].ports)
  }

  /** The used host ports, collected in some order. */
  ghost function UsedPortsOf(services: map<string, DockerService>): (r: seq<string>)
    ensures forall s :: s in r <==> PortUsed(services, s)
    decreases |services.Keys|
  {
    if services == map[] then []
    else
      var n :| n in services;
      var rest := services - {n};
      assert forall m :: m in rest ==> rest[m] == services[m];
      assert forall m :: m in services ==> m == n || m in rest;
      UsedPortsOf(rest) + HostPorts(services[n].ports)
  }

  /** No two mappings of the compose file, in one entry or in two, share a
      host port. */
  ghost predicate NoSharedHostPorts(services: map<string, DockerService>)
  {
    forall a, b, i, j ::
      a in services && b in services &&
      0 <= i < |services[a].ports| && 0 <= j < |services[b].ports| && (a != b || i != j) ==>
      HostPort(services[a].ports[i]) != HostPort(services[b].ports[j])
  }

  // ---------------------------------------------------------------- port search

  /** An upper bound for the numbers whose decimal rendering is in `used`. */
  function PortBound(used: seq<string>): nat
  {
    if |used| == 0 then 0
    else
      var last := used[|used| - 1];
      var rest := PortBound(used[..|used| - 1]);
      if forall k :: 0 <= k < |last| ==> IsDigit(last[k]) then
        (if DecValue(last) + 1 > rest then DecValue(last) + 1 else rest)
      else rest
  }

  lemma {:induction false} PortBoundAbove(used: seq<string>, q: nat)
    requires Dec(q) in used
    ensures q < PortBound(used)
  {
    var last := used[|used| - 1];
    if last == Dec(q) {
      DecRoundTrip(q);
    } else {
      assert used == used[..|used| - 1] + [last];
      PortBoundAbove(used[..|used| - 1], q);
    }
  }

  /** The first number from `p` up whose rendering is not in `used`. */
  function FreePortFrom(used: seq<string>, p: nat): (r: nat)
    ensures r >= p && Dec(r) !in used
    ensures forall q :: p <= q < r ==> Dec(q) in used
    decreases PortBound(used) - p
  {
    if Dec(p) in used then
      PortBoundAbove(used, p);
      FreePortFrom(used, p + 1)
    else p
  }

  /** The search the generator runs for both ports. */
  function FreePort(used: seq<string>): nat
  {
    FreePortFrom(used, 8800)
  }

  /** The inner loop: whether the port is among those used. */
  method PortTaken(used: seq<string>, port: string) returns (ex: bool)
    ensures ex <==> port in used
  {
    ex := false;
    var k := 0;
    while k < |used|
      invariant 0 <= k <= |used|
      invariant port !in used[..k]
    {
      if used[k] == port {
        ex := true;
        return;
      }
      assert used[..k + 1] == used[..k] + [used[k]];
      k := k + 1;
    }
    assert used[..k] == used;
  }

  /** The outer loop, counting up from 8800. */
  method SearchPort(used: seq<string>) returns (expose: nat)
    ensures expose == FreePort(used)
  {
    expose := 8800;
    while true
      invariant expose >= 8800
      invariant FreePortFrom(used, expose) == FreePort(used)
      decreases PortBound(used) - expose
    {
      var ex := PortTaken(used, Dec(expose));
      if ex {
        PortBoundAbove(used, expose);
        expose := expose + 1;
      } else {
        return;
      }
    }
  }

  // ---------------------------------------------------------------- compose entries

  /** The port mappings of a new entry: the HTTP one first, then the gRPC
      one, which is searched for with the HTTP port counted as used. */
  function NewPorts(used: seq<string>, hasHttp: bool, hasGrpc: bool): seq<string>
  {
    var http := if hasHttp then [Dec(FreePort(used)) + ":8081"] else [];
    var used2 := if hasHttp then used + [Dec(FreePort(used))] else used;
    http + if hasGrpc then [Dec(FreePort(used2)) + ":8082"] else []
  }

  function NewEntry(name: string, pth: string, ports: seq<string>): DockerService
  {
    DockerService(Build(".", name + "/Dockerfile"), "always", [".:" + pth], name, ports)
  }

  /** What `addToDockerCompose` leaves in the map: an existing entry stays
      as it is; a new one is added with free host ports. */
  ghost function AddToComposeSpec(
    services: map<string, DockerService>, name: string, pth: string, hasHttp: bool, hasGrpc: bool)
    : map<string, DockerService>
  {
    if name in services then services
    else services[name := NewEntry(name, pth, NewPorts(UsedPortsOf(services), hasHttp, hasGrpc))]
  }

  /** What the generator finds in one entry of the working directory: the
      results of its existence checks and of reading docker-compose.yml. */
  datatype ServiceDir = ServiceDir(
    name: string,
    isDir: Result<bool>,
    dockerfile: Result<bool>,
    compose: Result<bool>,
    loaded: Result<map<string, DockerService>>,
    service: Result<bool>,
    http: Result<bool>,
    grpc: Result<bool>)

  /** The compose file's services and the files written. */
  datatype Compose = Compose(services: map<string, DockerService>, written: seq<string>)

  ghost function AddSpec(st: Compose, name: string, pth: string, http: Result<bool>, grpc: Result<bool>): (r: Result<Compose>)
  {
    if http.Failure? then Failure(http.error)
    else if grpc.Failure? then Failure(grpc.error)
    else Success(st.(services := AddToComposeSpec(st.services, name, pth, http.value, grpc.value)))
  }

  /** `generateDockerFile`: a service whose Dockerfile exists only gets its
      compose entry; otherwise an existing docker-compose.yml is read over
      the map, and a directory that holds a service gets its entry and a
      new Dockerfile. */
  ghost function DockerFileSpec(st: Compose, pth: Result<string>, d: ServiceDir): (r: Result<Compose>)
    ensures r.Success? ==> st.services.Keys <= r.value.services.Keys
    ensures r.Success? && (d.dockerfile == Success(true) || d.service == Success(true)) ==> d.name in r.value.services
    ensures r.Success? ==>
      r.value.written == st.written + (if d.dockerfile == Success(false) && d.service == Success(true) then [d.name + "/Dockerfile"] else [])
  {
    if pth.Failure? then Failure(pth.error)
    else if d.dockerfile.Failure? then Failure(d.dockerfile.error)
    else if d.dockerfile.value then AddSpec(st, d.name, "/go/src/" + pth.value, d.http, d.grpc)
    else if d.compose.Failure? then Failure(d.compose.error)
    else if d.compose.value && d.loaded.Failure? then Failure(d.loaded.error)
    else
      var st1 := if d.compose.value then st.(services := st.services + d.loaded.value) else st;
      if d.service.Failure? then Failure(d.service.error)
      else if !d.service.value then Success(st1)
      else
        match AddSpec(st1, d.name, "/go/src/" + pth.value, d.http, d.grpc)
        case Failure(e) => Failure(e)
        case Success(st2) => Success(st2.(written := st2.written + [d.name + "/Dockerfile"]))
  }

  /** The loop of `Generate` over the entries, up to the first error;
      entries that are not directories are skipped. */
  ghost function GenerateSpec(st: Compose, pth: Result<string>, dirs: seq<ServiceDir>): (r: Result<Compose>)
  {
    if |dirs| == 0 then Success(st)
    else
      var d := dirs[|dirs| - 1];
      match GenerateSpec(st, pth, dirs[..|dirs| - 1])
      case Failure(e) => Failure(e)
      case Success(s) =>
        if d.isDir.Failure? then Failure(d.isDir.error)
        else if !d.isDir.value then Success(s)
        else DockerFileSpec(s, pth, d)
  }

  /** The host ports of one entry's mappings, in order. */
  method HostPortsOf(ps: seq<string>) returns (r: seq<string>)
    ensures r == HostPorts(ps)
  {
    r := [];
    var k := 0;
    while k < |ps|
      invariant 0 <= k <= |ps|
      invariant r == HostPorts(ps[..k])
    {
      assert ps[..k + 1][..k] == ps[..k];
      r := r + [Split(ps[k], ':')[0]];
      k := k + 1;
    }
    assert ps[..k] == ps;
  }

  /** The collection loop over the map, in whatever order it yields. */
  method CollectUsedPorts(services: map<string, DockerService>) returns (used: seq<string>)
    ensures forall s :: s in used <==> PortUsed(services, s)
  {
    used := [];
    var left := services.Keys;
    while left != {}
      invariant left <= services.Keys
      invariant forall s :: s in used <==> exists n :: n in services && n !in left && s in HostPorts(services[n].ports)
      decreases left
    {
      var n :| n in left;
      var ps := HostPortsOf(services[n].ports);
      used := used + ps;
      left := left - {n};
    }
  }

  /** The `GenerateDocker` generator: the compose file's services, and the
      files written so far. */
  class GenerateDocker {
    const glide: bool
    var services: map<string, DockerService>
    var written: seq<string>

    constructor (glide: bool)
      ensures this.glide == glide && services == map[] && written == []
    {
      this.glide := glide;
      services := map[];
      written := [];
    }

    /** `addToDockerCompose`. The existence checks of the HTTP and gRPC
        transport files are given; a failed check is returned. */
    method AddToDockerCompose(name: string, pth: string, http: Result<bool>, grpc: Result<bool>)
      returns (err: Option<string>)
      modifies this
      ensures written == old(written)
      ensures http.Failure? ==> err == Some(http.error) && services == old(services)
      ensures http.Success? && grpc.Failure? ==> err == Some(grpc.error) && services == old(services)
      ensures http.Success? && grpc.Success? ==>
        err == None && services == AddToComposeSpec(old(services), name, pth, http.value, grpc.value)
    {
      if http.Failure? {
        return Some(http.error);
      }
      if grpc.Failure? {
        return Some(grpc.error);
      }
      var used := CollectUsedPorts(services);
      ghost var used0 := used;
      if name !in services {
        var ports := [];
        if http.value {
          var httpExpose := SearchPort(used);
          ports := [Dec(httpExpose) + ":8081"];
          used := used + [Dec(httpExpose)];
        }
        if grpc.value {
          var grpcExpose := SearchPort(used);
          ports := ports + [Dec(grpcExpose) + ":8082"];
        }
        assert ports == NewPorts(used0, http.value, grpc.value);
        services := services[name := NewEntry(name, pth, ports)];
      }
      NewPortsMembership(used0, UsedPortsOf(old(services)), http.value, grpc.value);
      return None;
    }

    /** `generateDockerFile`. The project path and the checks are given;
        the Dockerfile's text is not modelled, only that it is written. */
    method GenerateDockerFile(pth: Result<string>, d: ServiceDir) returns (err: Option<string>)
      modifies this
      ensures var r := DockerFileSpec(Compose(old(services), old(written)), pth, d);
        (r.Failure? ==> err == Some(r.error) && written == old(written)) &&
        (r.Success? ==> err == None && Compose(services, written) == r.value)
    {
      if pth.Failure? {
        return Some(pth.error);
      }
      if d.dockerfile.Failure? {
        return Some(d.dockerfile.error);
      }
      if d.dockerfile.value {
        err := AddToDockerCompose(d.name, "/go/src/" + pth.value, d.http, d.grpc);
        return;
      }
      if d.compose.Failure? {
        return Some(d.compose.error);
      }
      if d.compose.value {
        if d.loaded.Failure? {
          return Some(d.loaded.error);
        }
        services := services + d.loaded.value;
      }
      if d.service.Failure? {
        return Some(d.service.error);
      }
      if !d.service.value {
        return None;
      }
      err := AddToDockerCompose(d.name, "/go/src/" + pth.value, d.http, d.grpc);
      if err.Some? {
        return;
      }
      written := written + [d.name + "/Dockerfile"];
    }

    /** `Generate`: every directory entry in turn, then docker-compose.yml
        is written. */
    method Generate(pth: Result<string>, dirs: seq<ServiceDir>) returns (err: Option<string>)
      modifies this
      ensures var r := GenerateSpec(Compose(old(services), old(written)), pth, dirs);
        (r.Failure? ==> err == Some(r.error)) &&
        (r.Success? ==> err == None && services == r.value.services && written == r.value.written + ["docker-compose.yml"])
    {
      ghost var st0 := Compose(services, written);
      var i := 0;
      while i < |dirs|
        invariant 0 <= i <= |dirs|
        invariant GenerateSpec(st0, pth, dirs[..i]) == Success(Compose(services, written))
      {
        assert dirs[..i + 1][..i] == dirs[..i];
        var d := dirs[i];
        if d.isDir.Failure? {
          GenerateSpecStops(st0, pth, dirs, i + 1);
          return Some(d.isDir.error);
        }
        if d.isDir.value {
          err := GenerateDockerFile(pth, d);
          if err.Some? {
            GenerateSpecStops(st0, pth, dirs, i + 1);
            return;
          }
        }
        i := i + 1;
      }
      assert dirs[..i] == dirs;
      written := written + ["docker-compose.yml"];
      return None;
    }
  }

  // ---------------------------------------------------------------- lemmas

  /** The first error ends the loop. */
  lemma {:induction false} GenerateSpecStops(st: Compose, pth: Result<string>, dirs: seq<ServiceDir>, i: nat)
    requires i <= |dirs| && GenerateSpec(st, pth, dirs[..i]).Failure?
    ensures GenerateSpec(st, pth, dirs) == GenerateSpec(st, pth, dirs[..i])
    decreases |dirs|
  {
    if i == |dirs| {
      assert dirs[..i] == dirs;
    } else {
      var init := dirs[..|dirs| - 1];
      assert init[..i] == dirs[..i];
      GenerateSpecStops(st, pth, init, i);
    }
  }

  /** The host part of `h:c` is `h` when `h` has no colon. */
  lemma {:induction false} HostPortOf(h: string, c: string)
    requires ':' !in h
    ensures HostPort(h + ":" + c) == h
    decreases |h|
  {
    var s := h + ":" + c;
    if |h| > 0 {
      assert s[1..] == h[1..] + ":" + c;
      HostPortOf(h[1..], c);
      assert [h[0]] + h[1..] == h;
    }
  }

  lemma DecHasNoColon(n: nat)
    ensures ':' !in Dec(n)
  {
  }

  /** The search result is determined by which ports are used, not by
      the order they were collected in. */
  lemma FreePortMembership(u1: seq<string>, u2: seq<string>)
    requires forall s :: s in u1 <==> s in u2
    ensures FreePort(u1) == FreePort(u2)
  {
  }

  lemma NewPortsMembership(u1: seq<string>, u2: seq<string>, hasHttp: bool, hasGrpc: bool)
    requires forall s :: s in u1 <==> s in u2
    ensures NewPorts(u1, hasHttp, hasGrpc) == NewPorts(u2, hasHttp, hasGrpc)
  {
    FreePortMembership(u1, u2);
    if hasHttp {
      var d := Dec(FreePort(u1));
      FreePortMembership(u1 + [d], u2 + [d]);
    }
  }

  /** A port found by the search is the smallest one from 8800 up that is
      free. */
  lemma FreePortIsSmallest(used: seq<string>)
    ensures FreePort(used) >= 8800 && Dec(FreePort(used)) !in used
    ensures forall q :: 8800 <= q < FreePort(used) ==> Dec(q) in used
  {
  }

  /** A mapping from a port missing from a list that holds every used
      port: its host part is that port, which no entry uses. */
  lemma FreshMapping(services: map<string, DockerService>, used: seq<string>, q: nat, c: string)
    requires forall s :: PortUsed(services, s) ==> s in used
    requires Dec(q) !in used
    requires |c| >= 1 && c[0] == ':'
    ensures HostPort(Dec(q) + c) == Dec(q) && !PortUsed(services, Dec(q))
  {
    DecHasNoColon(q);
    assert Dec(q) + c == Dec(q) + ":" + c[1..];
    HostPortOf(Dec(q), c[1..]);
  }

  /** The host ports of a new entry: one per transport file, none used by
      another entry, and different from each other. */
  lemma {:induction false} NewPortsFresh(services: map<string, DockerService>, used: seq<string>, hasHttp: bool, hasGrpc: bool)
    requires forall s :: s in used <==> PortUsed(services, s)
    ensures var ps := NewPorts(used, hasHttp, hasGrpc);
      |ps| == (if hasHttp then 1 else 0) + (if hasGrpc then 1 else 0) &&
      (forall j :: 0 <= j < |ps| ==> !PortUsed(services, HostPort(ps[j]))) &&
      (|ps| == 2 ==> HostPort(ps[0]) != HostPort(ps[1]))
    ensures hasHttp ==> NewPorts(used, hasHttp, hasGrpc)[0] == Dec(FreePort(used)) + ":8081"
    ensures !hasHttp && !hasGrpc ==> NewPorts(used, hasHttp, hasGrpc) == []
  {
    var ps := NewPorts(used, hasHttp, hasGrpc);
    var h := FreePort(used);
    var used2 := if hasHttp then used + [Dec(h)] else used;
    var g := FreePort(used2);
    var http := Dec(h) + ":8081";
    var grpc := Dec(g) + ":8082";
    FreshMapping(services, used, h, ":8081");
    if hasGrpc {
      assert forall s :: PortUsed(services, s) ==> s in used2;
      FreshMapping(services, used2, g, ":8082");
    }
    if hasHttp && hasGrpc {
      assert ps == [http, grpc];
      assert Dec(h) in used2;
    } else if hasHttp {
      assert ps == [http];
    } else if hasGrpc {
      assert ps == [grpc];
    }
  }

  /** A new entry whose host ports differ from each other and are used by
      no other entry keeps the compose file free of shared host ports. */
  lemma AddFreshEntryApart(services: map<string, DockerService>, name: string, e: DockerService)
    requires NoSharedHostPorts(services) && name !in services
    requires forall k :: 0 <= k < |e.ports| ==> !PortUsed(services, HostPort(e.ports[k]))
    requires forall k, l :: 0 <= k < |e.ports| && 0 <= l < |e.ports| && k != l ==> HostPort(e.ports[k]) != HostPort(e.ports[l])
    ensures NoSharedHostPorts(services[name := e])
  {
    var m := services[name := e];
    forall a, b, i, j |
      a in m && b in m && 0 <= i < |m[a].ports| && 0 <= j < |m[b].ports| && (a != b || i != j)
      ensures HostPort(m[a].ports[i]) != HostPort(m[b].ports[j])
    {
      if a == name && b != name {
        assert HostPort(m[b].ports[j]) in HostPorts(services[b].ports);
      } else if a != name && b == name {
        assert HostPort(m[a].ports[i]) in HostPorts(services[a].ports);
      }
    }
  }

  /** Adding an entry keeps the compose file free of shared host ports. */
  lemma AddKeepsPortsApart(
    services: map<string, DockerService>, name: string, pth: string, hasHttp: bool, hasGrpc: bool)
    requires NoSharedHostPorts(services)
    ensures NoSharedHostPorts(AddToComposeSpec(services, name, pth, hasHttp, hasGrpc))
  {
    if name !in services {
      var used := UsedPortsOf(services);
      var ps := NewPorts(used, hasHttp, hasGrpc);
      NewPortsFresh(services, used, hasHttp, hasGrpc);
      AddFreshEntryApart(services, name, NewEntry(name, pth, ps));
    }
  }

  /** An entry already in the compose file is left as it is. */
  lemma ExistingEntryUntouched(
    services: map<string, DockerService>, name: string, pth: string, hasHttp: bool, hasGrpc: bool)
    requires name in services
    ensures AddToComposeSpec(services, name, pth, hasHttp, hasGrpc) == services
  {
  }

  /** A new entry is built for the service's Dockerfile and directory, and
      nothing else in the map changes. */
  lemma NewEntryLayout(
    services: map<string, DockerService>, name: string, pth: string, hasHttp: bool, hasGrpc: bool)
    requires name !in services
    ensures var m := AddToComposeSpec(services, name, pth, hasHttp, hasGrpc);
      m.Keys == services.Keys + {name} &&
      (forall n :: n in services ==> m[n] == services[n]) &&
      m[name].build == Build(".", name + "/Dockerfile") && m[name].restart == "always" &&
      m[name].containerName == name && m[name].volumes == [".:" + pth]
  {
  }

  /** Without a docker-compose.yml to read in, each step keeps the host
      ports apart. */
  lemma DockerFileKeepsPortsApart(st: Compose, pth: Result<string>, d: ServiceDir)
    requires NoSharedHostPorts(st.services) && d.compose != Success(true)
    ensures var r := DockerFileSpec(st, pth, d); r.Success? ==> NoSharedHostPorts(r.value.services)
  {
    if pth.Success? && d.http.Success? && d.grpc.Success? {
      AddKeepsPortsApart(st.services, d.name, "/go/src/" + pth.value, d.http.value, d.grpc.value);
    }
  }

  /** A run that reads no docker-compose.yml, started from a compose file
      without shared host ports, ends with one. */
  lemma {:induction false} GenerateKeepsPortsApart(st: Compose, pth: Result<string>, dirs: seq<ServiceDir>)
    requires NoSharedHostPorts(st.services)
    requires forall k :: 0 <= k < |dirs| ==> dirs[k].compose != Success(true)
    ensures var r := GenerateSpec(st, pth, dirs); r.Success? ==> NoSharedHostPorts(r.value.services)
  {
    if |dirs| > 0 {
      var init := dirs[..|dirs| - 1];
      GenerateKeepsPortsApart(st, pth, init);
      var r0 := GenerateSpec(st, pth, init);
      if r0.Success? {
        DockerFileKeepsPortsApart(r0.value, pth, dirs[|dirs| - 1]);
      }
    }
  }

  /** After a run without errors, every directory that holds a service or
      a Dockerfile has its compose entry, and no entry has gone. */
  lemma {:induction false} EveryServiceHasEntry(st: Compose, pth: Result<string>, dirs: seq<ServiceDir>)
    ensures var r := GenerateSpec(st, pth, dirs);
      r.Success? ==>
        st.services.Keys <= r.value.services.Keys &&
        forall k ::
          (0 <= k < |dirs| && dirs[k].isDir == Success(true) &&
           (dirs[k].dockerfile == Success(true) || dirs[k].service == Success(true))) ==>
          dirs[k].name in r.value.services
  {
    if |dirs| > 0 {
      var init := dirs[..|dirs| - 1];
      EveryServiceHasEntry(st, pth, init);
      var r := GenerateSpec(st, pth, dirs);
      if r.Success? {
        var r0 := GenerateSpec(st, pth, init);
        assert r0.value.services.Keys <= r.value.services.Keys;
        forall k | 0 <= k < |dirs| - 1 ensures dirs[k] == init[k] { }
      }
    }
  }
}
