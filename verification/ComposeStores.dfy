/**
 Which container store a compose step belongs in. One runtime binary reaches
 two stores (the daemon user's own, and root's through `sudo -n`), and running a
 step in the store a project does not live in creates a second copy of it. The
 planner therefore finds the one store that holds the project and builds every
 step for that store only.
 */
module ComposeStores {
  import opened Wrappers
  import opened Sequences
  import opened Text
  import opened Stages
  import FilePaths

  datatype Runtime = Podman | Docker

  datatype Store = Store(runtime: Runtime, elevated: bool)

  datatype Container = Container(id: string, image: string, state: string, service: string)

  /** The compose identity a step is run for. */
  datatype Target = Target(project: string, service: string, directory: string, files: seq<string>)

  datatype Tool = Tool(command: string, prefix: seq<string>)

  /**
   What the host answers while one step is planned: the runtimes it has, which
   commands `sudo -n` may run, the standalone compose tools, and what each store
   lists for the project at hand.
   */
  datatype HostFacts = HostFacts(
    paths: map<Runtime, string>,
    hasSudo: bool,
    sudoCommands: set<string>,
    standalone: map<Runtime, string>,
    listing: Store -> Result<seq<Container>, string>,
    inspect: string -> Result<string, string>,
    resolveImage: string -> Option<string>)
  {
    /** Whether `sudo -n` may run the command. */
    predicate SudoRuns(command: string) {
      hasSudo && command in sudoCommands
    }

    /** Commands are resolved to paths, and each belongs to one runtime. */
    ghost predicate Valid() {
      && (forall r, c :: Owns(r, c) ==> c != "sudo")
      && (forall r, q, c :: Owns(r, c) && Owns(q, c) ==> r == q)
    }

    predicate Owns(r: Runtime, command: string) {
      (r in paths && paths[r] == command) || (r in standalone && standalone[r] == command)
    }
  }

  datatype Refusal =
    | Unreadable(store: Store)
    | SeveralStores(stores: seq<Store>)
    | NoRuntime
    | NoTool
    | ToolOutOfReach(store: Store, command: string)
    | CannotList(message: string)
    | UnknownAction

  /** The stores of one available runtime: the daemon user's own, and root's when it can be reached. */
  function StoresOf(h: HostFacts, r: Runtime): seq<Store> {
    if r !in h.paths then []
    else if h.hasSudo then [Store(r, false), Store(r, true)]
    else [Store(r, false)]
  }

  function ComposeStoreList(h: HostFacts): (s: seq<Store>)
    ensures NoDuplicates(s)
  {
    StoresOf(h, Podman) + StoresOf(h, Docker)
  }

  /** The store answered its listing. */
  predicate Listed(h: HostFacts, s: Store) {
    s in ComposeStoreList(h) && h.listing(s).Ok?
  }

  predicate ListsProject(h: HostFacts, s: Store) {
    h.listing(s).Ok? && h.listing(s).value != []
  }

  /** An unanswered store that sudo could have read stops everything: the project might be there. */
  predicate Blocking(h: HostFacts, s: Store) {
    s.elevated && h.listing(s).Err? && s.runtime in h.paths && h.SudoRuns(h.paths[s.runtime])
  }

  /** The stores that list the project, in probe order. */
  function Holding(h: HostFacts): seq<Store> {
    Filter(ComposeStoreList(h), set s | s in ComposeStoreList(h) && ListsProject(h, s))
  }

  method ComposeProjectStores(h: HostFacts) returns (r: Result<seq<Store>, Refusal>)
    ensures r.Err? <==> exists s :: s in ComposeStoreList(h) && Blocking(h, s)
    ensures r.Ok? ==> r.value == Holding(h)
  {
    hide Filter, ComposeStoreList;
    var stores := ComposeStoreList(h);
    ghost var lists := set s | s in stores && ListsProject(h, s);
    var found: seq<Store> := [];
    var i := 0;
    while i < |stores|
      invariant 0 <= i <= |stores|
      invariant found == Filter(stores[..i], lists)
      invariant forall j :: 0 <= j < i ==> !Blocking(h, stores[j])
    {
      var s, next := stores[i], i + 1;
      FilterOneMore(stores, i, next, lists);
      StoreHasPath(h, s);
      var listing := h.listing(s);
      if listing.Err? {
        if s.elevated && h.SudoRuns(h.paths[s.runtime]) {
          assert s in stores && Blocking(h, s);
          return Err(Unreadable(s));
        }
      } else if |listing.value| > 0 {
        found := found + [s];
      }
      assert !Blocking(h, s);
      i := next;
    }
    assert stores[..i] == stores;
    r := Ok(found);
  }

  lemma StoreHasPath(h: HostFacts, s: Store)
    requires s in ComposeStoreList(h)
    ensures s.runtime in h.paths
  {
  }

  /** The daemon's own store of the first available runtime. */
  function FirstOwnStore(h: HostFacts): Option<Store> {
    if Podman in h.paths then Some(Store(Podman, false))
    else if Docker in h.paths then Some(Store(Docker, false))
    else None
  }

  /** The store a step belongs in: the one that holds the project, else the fallback, else the default. */
  ghost predicate Chooses(h: HostFacts, fallback: Option<Store>, s: Store) {
    && (forall t :: t in ComposeStoreList(h) ==> !Blocking(h, t))
    && if Holding(h) == [] then Some(s) == (if fallback.Some? then fallback else FirstOwnStore(h))
       else Holding(h) == [s]
  }

  /** The store is there to be asked, and lists containers of the project. */
  predicate Lists(h: HostFacts, s: Store) {
    s.runtime in h.paths && (s.elevated ==> h.hasSudo) && h.listing(s).Ok? && |h.listing(s).value| > 0
  }

  /** It did not answer, though sudo may run its runtime as root. */
  predicate Hides(h: HostFacts, s: Store) {
    s.runtime in h.paths && s.elevated && h.hasSudo && h.paths[s.runtime] in h.sudoCommands && h.listing(s).Err?
  }

  /**
   Told of the stores alone: the step belongs in the one store that lists the
   project; when none does, in the fallback, or in the daemon user's own store,
   podman's before docker's.
   */
  ghost predicate Belongs(h: HostFacts, fallback: Option<Store>, s: Store) {
    && (forall t :: !Hides(h, t))
    && (|| (forall t :: Lists(h, t) <==> t == s)
        || (&& (forall t :: !Lists(h, t))
            && (|| fallback == Some(s)
                || (fallback.None? && s == Store(Podman, false) && Podman in h.paths)
                || (fallback.None? && s == Store(Docker, false) && Docker in h.paths && Podman !in h.paths))))
  }

  /** The probed stores are those of the runtimes there are, root's own among them when sudo is. */
  lemma ProbedStores(h: HostFacts, t: Store)
    ensures t in ComposeStoreList(h) <==> t.runtime in h.paths && (t.elevated ==> h.hasSudo)
  {
    assert t == Store(t.runtime, t.elevated);
    if t.runtime.Podman? {
      assert t in ComposeStoreList(h) <==> t in StoresOf(h, Podman);
    } else {
      assert t in ComposeStoreList(h) <==> t in StoresOf(h, Docker);
    }
  }

  lemma ChosenBelongs(h: HostFacts, fallback: Option<Store>, s: Store)
    ensures Chooses(h, fallback, s) <==> Belongs(h, fallback, s)
  {
    hide Filter, ComposeStoreList;
    forall t
      ensures Hides(h, t) <==> t in ComposeStoreList(h) && Blocking(h, t)
      ensures Lists(h, t) <==> t in Holding(h)
    {
      ProbedStores(h, t);
    }
    FilterNoDuplicates(ComposeStoreList(h), set t | t in ComposeStoreList(h) && ListsProject(h, t));
    var found := Holding(h);
    OnlyOne(found, s);
    assert found == [s] <==> forall t :: Lists(h, t) <==> t == s;
    assert found == [] <==> forall t :: !Lists(h, t) by {
      if found != [] {
        assert Lists(h, found[0]);
      }
    }
    assert (forall t :: t in ComposeStoreList(h) ==> !Blocking(h, t)) <==> forall t :: !Hides(h, t);
    if found == [] {
      assert !Lists(h, s);
    }
  }

  /** A list without repetitions holds nothing but s exactly if it is that list. */
  lemma OnlyOne(found: seq<Store>, s: Store)
    requires NoDuplicates(found)
    ensures found == [s] <==> forall t :: t in found <==> t == s
  {
    if forall t :: t in found <==> t == s {
      assert s in found;
      if |found| > 1 {
        assert found[0] in found && found[1] in found;
      }
    }
  }

  /** Which store a step for the project belongs in; refused exactly when no store is the right one. */
  method ComposeProjectStore(h: HostFacts, fallback: Option<Store>) returns (r: Result<Store, Refusal>)
    ensures r.Ok? ==> Chooses(h, fallback, r.value)
    ensures r.Err? ==> forall s :: !Chooses(h, fallback, s)
    ensures r.Ok? ==> Belongs(h, fallback, r.value)
    ensures r.Err? ==> forall s :: !Belongs(h, fallback, s)
  {
    forall s {
      ChosenBelongs(h, fallback, s);
    }
    var found := ComposeProjectStores(h);
    if found.Err? {
      return Err(found.error);
    }
    if |found.value| == 1 {
      return Ok(found.value[0]);
    }
    if |found.value| > 1 {
      return Err(SeveralStores(found.value));
    }
    if fallback.Some? {
      return Ok(fallback.value);
    }
    if Podman in h.paths {
      return Ok(Store(Podman, false));
    }
    if Docker in h.paths {
      return Ok(Store(Docker, false));
    }
    return Err(NoRuntime);
  }

  // ------------------------------------------------------------------- tools

  /**
   The compose tools of a runtime in the order a step prefers them. Docker
   implements compose itself; podman's subcommand only wraps the standalone
   tool, so there the direct tool goes first.
   */
  function ComposeTools(h: HostFacts, r: Runtime): (tools: seq<Tool>)
    requires r in h.paths
    ensures 1 <= |tools| <= 2
    ensures forall t :: t in tools ==> h.Owns(r, t.command)
  {
    var runtimeTool := Tool(h.paths[r], ["compose"]);
    if r !in h.standalone then [runtimeTool]
    else
      var direct := Tool(h.standalone[r], []);
      if r.Podman? then [direct, runtimeTool] else [runtimeTool, direct]
  }

  /** A recorded compose file, relative ones against the project directory. */
  function ResolveFile(directory: string, file: string): Option<string> {
    if FilePaths.IsAbs(file) then Some(file)
    else if directory == "" then None
    else Some(FilePaths.Join(directory, file))
  }

  function FileArgs(directory: string, files: seq<string>): seq<string> {
    if files == [] then []
    else match ResolveFile(directory, files[0])
         case Some(path) => ["-f", path] + FileArgs(directory, files[1..])
         case None => FileArgs(directory, files[1..])
  }

  /** What one tool is asked to do, before the store decides how it is reached. */
  function InnerArgs(tool: Tool, target: Target, args: seq<string>): seq<string> {
    tool.prefix + ["-p", target.project] + FileArgs(target.directory, target.files) + args
  }

  function AttemptFor(s: Store, tool: Tool, target: Target, args: seq<string>): Attempt {
    var inner := InnerArgs(tool, target, args);
    if s.elevated then Attempt("sudo", ["-n", tool.command] + inner, target.directory)
    else Attempt(tool.command, inner, target.directory)
  }

  /** How many tools, from the preferred one on, can reach the store. */
  function ReachCount(h: HostFacts, s: Store, tools: seq<Tool>): (k: nat)
    ensures k <= |tools|
    ensures !s.elevated ==> k == |tools|
    ensures s.elevated ==> forall i :: 0 <= i < k ==> h.SudoRuns(tools[i].command)
    ensures s.elevated && k < |tools| ==> !h.SudoRuns(tools[k].command)
  {
    if tools == [] then 0
    else if s.elevated && !h.SudoRuns(tools[0].command) then 0
    else 1 + ReachCount(h, s, tools[1..])
  }

  /** The attempts of a step: a prefix of the preference order, each reaching exactly this store. */
  ghost predicate StepFor(h: HostFacts, s: Store, target: Target, args: seq<string>, attempts: seq<Attempt>) {
    && s.runtime in h.paths
    && var tools := ComposeTools(h, s.runtime);
       && |attempts| == ReachCount(h, s, tools) > 0
       && forall i :: 0 <= i < |attempts| ==> attempts[i] == AttemptFor(s, tools[i], target, args)
  }

  /** The command line asks `command words` for these arguments on the project and its files, as the store is reached. */
  ghost predicate Asks(a: Attempt, s: Store, command: string, words: seq<string>, target: Target, args: seq<string>) {
    var inner := words + ["-p", target.project] + FileArgs(target.directory, target.files) + args;
    && a.cwd == target.directory
    && (s.elevated ==> a.command == "sudo" && a.args == ["-n", command] + inner)
    && (!s.elevated ==> a.command == command && a.args == inner)
  }

  /** It asks the runtime's own compose, or the standalone tool. */
  ghost predicate AsksRuntime(h: HostFacts, a: Attempt, s: Store, target: Target, args: seq<string>)
    requires s.runtime in h.paths
  {
    Asks(a, s, h.paths[s.runtime], ["compose"], target, args)
  }

  ghost predicate AsksStandalone(h: HostFacts, a: Attempt, s: Store, target: Target, args: seq<string>) {
    s.runtime in h.standalone && Asks(a, s, h.standalone[s.runtime], [], target, args)
  }

  /** Each recorded file that can be found is named by its own flag, in order. */
  lemma {:induction false} FilesInOrder(directory: string, files: seq<string>, i: nat)
    requires i < |files| && forall f :: f in files ==> directory != "" || FilePaths.IsAbs(f)
    ensures var flags := FileArgs(directory, files);
            && |flags| == 2 * |files| && flags[2 * i] == "-f"
            && flags[2 * i + 1] == if FilePaths.IsAbs(files[i]) then files[i] else FilePaths.Join(directory, files[i])
    decreases |files|
  {
    if |files| == 1 {
      assert FileArgs(directory, files[1..]) == [];
    } else {
      FilesInOrder(directory, files[1..], if i == 0 then 0 else i - 1);
    }
  }

  /** A plain step: the preferred tool first, docker's own compose or podman's standalone one, then the other. */
  lemma StepSays(h: HostFacts, s: Store, target: Target, args: seq<string>, attempts: seq<Attempt>)
    requires StepFor(h, s, target, args, attempts)
    ensures |attempts| <= 2 && (|attempts| == 2 ==> s.runtime in h.standalone)
    ensures if s.runtime.Podman? && s.runtime in h.standalone
            then && AsksStandalone(h, attempts[0], s, target, args)
                 && (|attempts| == 2 ==> AsksRuntime(h, attempts[1], s, target, args))
            else && AsksRuntime(h, attempts[0], s, target, args)
                 && (|attempts| == 2 ==> AsksStandalone(h, attempts[1], s, target, args))
    ensures s.elevated ==> h.hasSudo && forall a :: a in attempts ==> |a.args| > 1 && a.args[1] in h.sudoCommands
  {
    var tools := ComposeTools(h, s.runtime);
    assert attempts[0] == AttemptFor(s, tools[0], target, args);
    if |attempts| == 2 {
      assert attempts[1] == AttemptFor(s, tools[1], target, args);
    }
  }

  method ComposeAttempts(h: HostFacts, s: Store, target: Target, args: seq<string>)
    returns (r: Result<seq<Attempt>, Refusal>)
    requires s.runtime in h.paths
    ensures r.Ok? ==> StepFor(h, s, target, args, r.value)
    ensures r.Err? <==> OutOfReach(h, s)
    ensures r.Err? <==> s.elevated && !(h.hasSudo && (if s.runtime.Podman? && s.runtime in h.standalone
                                                      then h.standalone[s.runtime] else h.paths[s.runtime]) in h.sudoCommands)
  {
    var tools := ComposeTools(h, s.runtime);
    if |tools| == 0 {
      return Err(NoTool);
    }
    var attempts: seq<Attempt> := [];
    var i := 0;
    while i < |tools|
      invariant 0 <= i <= |tools| && |attempts| == i
      invariant forall j :: 0 <= j < i ==> attempts[j] == AttemptFor(s, tools[j], target, args)
      invariant s.elevated ==> forall j :: 0 <= j < i ==> h.SudoRuns(tools[j].command)
    {
      var tool := tools[i];
      if s.elevated && !h.SudoRuns(tool.command) {
        if |attempts| > 0 {
          break;
        }
        return Err(ToolOutOfReach(s, tool.command));
      }
      attempts := attempts + [AttemptFor(s, tool, target, args)];
      i := i + 1;
    }
    ReachCountIs(h, s, tools, i);
    r := Ok(attempts);
  }

  lemma ReachCountIs(h: HostFacts, s: Store, tools: seq<Tool>, k: nat)
    requires k <= |tools|
    requires s.elevated ==> forall i :: 0 <= i < k ==> h.SudoRuns(tools[i].command)
    requires k < |tools| ==> s.elevated && !h.SudoRuns(tools[k].command)
    ensures ReachCount(h, s, tools) == k
  {
  }

  /** The store a command line reaches, read off the command line alone. */
  ghost function Addresses(h: HostFacts, a: Attempt): Option<Store> {
    if a.command == "sudo" then
      if |a.args| >= 2 && a.args[0] == "-n" then StoreOf(h, a.args[1], true) else None
    else StoreOf(h, a.command, false)
  }

  ghost function StoreOf(h: HostFacts, command: string, elevated: bool): Option<Store> {
    if h.Owns(Podman, command) then Some(Store(Podman, elevated))
    else if h.Owns(Docker, command) then Some(Store(Docker, elevated))
    else None
  }

  /** Every attempt of a step built for a store reaches that store and no other. */
  lemma StepAddressesItsStore(h: HostFacts, s: Store, target: Target, args: seq<string>, attempts: seq<Attempt>)
    requires h.Valid() && StepFor(h, s, target, args, attempts)
    ensures forall a :: a in attempts ==> Addresses(h, a) == Some(s)
  {
    var tools := ComposeTools(h, s.runtime);
    forall i | 0 <= i < |attempts|
      ensures Addresses(h, attempts[i]) == Some(s)
    {
      var c := tools[i].command;
      assert tools[i] in tools && h.Owns(s.runtime, c);
      assert attempts[i] == AttemptFor(s, tools[i], target, args);
      if s.runtime.Docker? && h.Owns(Podman, c) {
        assert false;
      }
    }
  }

  // ---------------------------------------------------------------- recreate

  /** The pull left this container behind: it is there, and it is not running the image its reference names now. */
  predicate Behind(h: HostFacts, c: Container) {
    match h.inspect(c.id)
    case Err(_) => false
    case Ok(running) =>
      var wanted := WantedImage(h, c.image);
      !(wanted != "" && Trim(running) == wanted && c.state == "running")
  }

  function WantedImage(h: HostFacts, image: string): string {
    match h.resolveImage(image)
    case None => ""
    case Some(out) => Trim(out)
  }

  function BehindOf(h: HostFacts, containers: seq<Container>): seq<Container> {
    if containers == [] then []
    else
      var rest := BehindOf(h, containers[..|containers| - 1]);
      if Behind(h, containers[|containers| - 1]) then rest + [containers[|containers| - 1]] else rest
  }

  /** The containers a pull left behind, in listing order; each image reference is resolved once. */
  method ContainersBehind(h: HostFacts, s: Store) returns (r: Result<(seq<Container>, bool), string>)
    ensures r.Err? <==> h.listing(s).Err?
    ensures r.Ok? ==> r.value == (BehindOf(h, h.listing(s).value), h.listing(s).value != [])
  {
    var listing := h.listing(s);
    if listing.Err? {
      return Err(listing.error);
    }
    var containers := listing.value;
    if |containers| == 0 {
      return Ok(([], false));
    }
    var behind: seq<Container> := [];
    var resolved: map<string, string> := map[];
    var i := 0;
    while i < |containers|
      invariant 0 <= i <= |containers|
      invariant behind == BehindOf(h, containers[..i])
      invariant forall image :: image in resolved ==> resolved[image] == WantedImage(h, image)
    {
      var c, next := containers[i], i + 1;
      BehindOneMore(h, containers, i, next);
      i := next;
      var running := h.inspect(c.id);
      if running.Err? {
        continue;
      }
      if c.image !in resolved {
        var out := h.resolveImage(c.image);
        resolved := resolved[c.image := if out.None? then "" else Trim(out.value)];
      }
      var wanted := resolved[c.image];
      if wanted != "" && Trim(running.value) == wanted && c.state == "running" {
        continue;
      }
      behind := behind + [c];
    }
    assert containers[..i] == containers;
    r := Ok((behind, true));
  }

  lemma BehindOneMore(h: HostFacts, containers: seq<Container>, i: nat, next: nat)
    requires next == i + 1 <= |containers|
    ensures BehindOf(h, containers[..next])
            == if Behind(h, containers[i]) then BehindOf(h, containers[..i]) + [containers[i]] else BehindOf(h, containers[..i])
  {
    assert containers[..next][..i] == containers[..i];
  }

  /** The first-seen order of the services, each once. */
  function Services(behind: seq<Container>): (r: seq<string>)
    ensures NoDuplicates(r)
    ensures r == [] <==> behind == []
    ensures forall name :: name in r <==> exists c :: c in behind && c.service == name
  {
    if behind == [] then []
    else
      var earlier := Services(behind[..|behind| - 1]);
      var last := behind[|behind| - 1];
      assert behind == behind[..|behind| - 1] + [last];
      if last.service in earlier then earlier else earlier + [last.service]
  }

  lemma ServicesOneMore(behind: seq<Container>, i: nat, next: nat)
    requires next == i + 1 <= |behind|
    ensures var earlier := Services(behind[..i]);
            Services(behind[..next]) == if behind[i].service in earlier then earlier else earlier + [behind[i].service]
  {
    assert behind[..next][..i] == behind[..i];
  }

  const RECREATE: seq<string> := ["up", "-d", "--force-recreate"]

  /** What the recreate half of an update asks compose for; None when there is nothing to do. */
  function RecreateArgs(h: HostFacts, containers: seq<Container>): Option<seq<string>> {
    var behind := BehindOf(h, containers);
    if containers == [] || (exists c :: c in behind && c.service == "") then Some(RECREATE)
    else if behind == [] then None
    else Some(RECREATE + Services(behind))
  }

  /** The services to recreate, in order of first appearance; none can be named when a container has none. */
  method ServicesBehind(behind: seq<Container>) returns (services: Option<seq<string>>)
    ensures services == if exists c :: c in behind && c.service == "" then None else Some(Services(behind))
  {
    hide Services;
    var names: seq<string> := [];
    var i := 0;
    while i < |behind|
      invariant 0 <= i <= |behind|
      invariant names == Services(behind[..i])
      invariant forall j :: 0 <= j < i ==> behind[j].service != ""
    {
      if behind[i].service == "" {
        assert behind[i] in behind;
        return None;
      }
      var next := i + 1;
      ServicesOneMore(behind, i, next);
      if behind[i].service !in names {
        names := names + [behind[i].service];
      }
      i := next;
    }
    assert behind[..i] == behind;
    return Some(names);
  }

  /**
   The container is there, and its reference names no image now, or it runs another
   one than that, or it does not run.
   */
  predicate OutOfDate(h: HostFacts, c: Container) {
    && h.inspect(c.id).Ok?
    && (|| h.resolveImage(c.image).None? || Trim(h.resolveImage(c.image).value) == ""
        || Trim(h.inspect(c.id).value) != Trim(h.resolveImage(c.image).value)
        || c.state != "running")
  }

  /** These are the services of the containers that are out of date, each once. */
  ghost predicate NamesOutOfDate(h: HostFacts, containers: seq<Container>, services: seq<string>) {
    && NoDuplicates(services)
    && forall name :: name in services <==> exists c :: c in containers && c.service == name && OutOfDate(h, c)
  }

  lemma {:induction false} BehindAreOutOfDate(h: HostFacts, containers: seq<Container>, c: Container)
    ensures c in BehindOf(h, containers) <==> c in containers && OutOfDate(h, c)
  {
    if containers != [] {
      var init, last := containers[..|containers| - 1], containers[|containers| - 1];
      BehindAreOutOfDate(h, init, c);
      assert containers == init + [last];
    }
  }

  lemma ServicesAreOutOfDate(h: HostFacts, containers: seq<Container>)
    ensures NamesOutOfDate(h, containers, Services(BehindOf(h, containers)))
    ensures (exists c :: c in BehindOf(h, containers) && c.service == "") <==> exists c :: c in containers && OutOfDate(h, c) && c.service == ""
    ensures BehindOf(h, containers) == [] <==> forall c :: c in containers ==> !OutOfDate(h, c)
  {
    forall c
      ensures c in BehindOf(h, containers) <==> c in containers && OutOfDate(h, c)
    {
      BehindAreOutOfDate(h, containers, c);
    }
    if BehindOf(h, containers) != [] {
      assert BehindOf(h, containers)[0] in BehindOf(h, containers);
    }
  }

  /**
   Recreates the services that are out of date, or the whole project when there is
   no container to tell by or one of them has no service.
   */
  method ComposeUpdateRecreate(h: HostFacts, s: Store, target: Target) returns (r: Result<seq<Attempt>, Refusal>)
    requires s.runtime in h.paths
    ensures h.listing(s).Err? ==> r.Err?
    ensures h.listing(s).Ok? ==>
              match RecreateArgs(h, h.listing(s).value)
              case None => r == Ok([])
              case Some(args) => if r.Ok? then StepFor(h, s, target, args, r.value) else OutOfReach(h, s)
    // Told of the containers alone.
    ensures r == Ok([]) <==> && h.listing(s).Ok? && h.listing(s).value != []
                             && forall c :: c in h.listing(s).value ==> !OutOfDate(h, c)
    ensures r.Ok? && r.value != [] ==>
              var containers := h.listing(s).value;
              if containers == [] || exists c :: c in containers && OutOfDate(h, c) && c.service == ""
              then StepFor(h, s, target, ["up", "-d", "--force-recreate"], r.value)
              else exists services :: && NamesOutOfDate(h, containers, services)
                                      && StepFor(h, s, target, ["up", "-d", "--force-recreate"] + services, r.value)
  {
    hide OutOfReach, BehindOf, OutOfDate, ComposeTools, AttemptFor;
    if h.listing(s).Ok? {
      ServicesAreOutOfDate(h, h.listing(s).value);
    }
    var found := ContainersBehind(h, s);
    if found.Err? {
      return Err(CannotList(found.error));
    }
    var (behind, present) := found.value;
    if !present {
      r := ComposeAttempts(h, s, target, RECREATE);
      return;
    }
    var services := ServicesBehind(behind);
    if services.None? {
      r := ComposeAttempts(h, s, target, RECREATE);
      return;
    }
    if |services.value| == 0 {
      return Ok([]);
    }
    r := ComposeAttempts(h, s, target, RECREATE + services.value);
  }

  // -------------------------------------------------------------------- plans

  /** A planned compose operation; a stage built later is built for the captured store and target. */
  datatype ComposePlan = ComposePlan(stages: seq<OpStage>, store: Store, target: Target)

  /** What an update reports when no container is behind. */
  const IDLE := "nothing to recreate"

  function ComposeVerb(verb: string): Option<seq<string>> {
    match verb
    case "up" => Some(["up", "-d"])
    case "stop" => Some(["stop"])
    case "restart" => Some(["restart"])
    case "pull" => Some(["pull"])
    case "recreate" => Some(RECREATE)
    case _ => None
  }

  /** All attempts of all stages planned now are steps for the plan's store; the first is never left for later. */
  ghost predicate PlannedFor(h: HostFacts, p: ComposePlan) {
    && p.stages != [] && !p.stages[0].builtLate
    && p.store.runtime in h.paths
    && forall k :: 0 <= k < |p.stages| ==>
         if p.stages[k].builtLate then p.stages[k].attempts == []
         else exists args :: StepFor(h, p.store, p.target, args, p.stages[k].attempts)
  }

  /** What compose.<verb> runs in the chosen store. */
  ghost predicate PlansVerb(h: HostFacts, verb: string, p: ComposePlan) {
    if verb == "update" then
      && |p.stages| == 2
      && !p.stages[0].builtLate && StepFor(h, p.store, p.target, ["pull"], p.stages[0].attempts)
      && p.stages[1].builtLate && p.stages[1].attempts == []
    else
      && ComposeVerb(verb).Some? && |p.stages| == 1 && p.stages[0].name == verb
      && !p.stages[0].builtLate && StepFor(h, p.store, p.target, ComposeVerb(verb).value, p.stages[0].attempts)
  }

  /** The preferred tool cannot reach the store, so a step there is refused. */
  predicate OutOfReach(h: HostFacts, s: Store)
    requires s.runtime in h.paths
  {
    s.elevated && !h.SudoRuns(ComposeTools(h, s.runtime)[0].command)
  }

  /** compose.<verb>: one stage, or pull and then a recreate that is built after the pull. */
  method PlanCompose(h: HostFacts, verb: string, target: Target) returns (r: Result<ComposePlan, Refusal>)
    ensures r.Ok? ==> verb in {"up", "stop", "restart", "pull", "recreate", "update"} && r.value.stages != []
    ensures r.Ok? && verb in {"stop", "restart", "pull"} ==>
              StepFor(h, r.value.store, target, [verb], r.value.stages[0].attempts)
    ensures r.Ok? && verb == "up" ==> StepFor(h, r.value.store, target, ["up", "-d"], r.value.stages[0].attempts)
    ensures r.Ok? && verb == "recreate" ==>
              StepFor(h, r.value.store, target, ["up", "-d", "--force-recreate"], r.value.stages[0].attempts)
    ensures r.Ok? ==> r.value.target == target && Chooses(h, None, r.value.store) && PlansVerb(h, verb, r.value)
    ensures r.Err? ==> forall s :: Chooses(h, None, s) ==>
              (verb != "update" && ComposeVerb(verb).None?) || (s.runtime in h.paths && OutOfReach(h, s))
  {
    var chosen := ComposeProjectStore(h, None);
    match chosen {
      case Err(e) => return Err(e);
      case Ok(s) =>
        ChosenStoreExists(h, None, s);
        if verb == "update" {
          r := PlanTwo(h, s, target, ["pull"], None);
          return;
        }
        var args := ComposeVerb(verb);
        match args {
          case None => return Err(UnknownAction);
          case Some(words) =>
            var step := ComposeAttempts(h, s, target, words);
            match step {
              case Err(e) => return Err(e);
              case Ok(attempts) => return Ok(ComposePlan([OpStage(verb, attempts, false, "")], s, target));
            }
        }
    }
  }

  /** container.update: pull and recreate one service, in the store that holds its project. */
  method PlanContainerUpdate(h: HostFacts, foundIn: Store, target: Target) returns (r: Result<ComposePlan, Refusal>)
    requires foundIn.runtime in h.paths
    ensures r.Ok? ==> r.value.target == target && Chooses(h, Some(foundIn), r.value.store) && |r.value.stages| == 2
    ensures r.Ok? ==> StepFor(h, r.value.store, target, ["pull", target.service], r.value.stages[0].attempts)
    ensures r.Ok? ==> StepFor(h, r.value.store, target, RECREATE + [target.service], r.value.stages[1].attempts)
    ensures r.Ok? ==> PlannedFor(h, r.value)
    ensures r.Err? ==> forall s :: Chooses(h, Some(foundIn), s) ==> s.runtime in h.paths && OutOfReach(h, s)
  {
    var chosen := ComposeProjectStore(h, Some(foundIn));
    match chosen {
      case Err(e) => return Err(e);
      case Ok(s) =>
        ChosenStoreExists(h, Some(foundIn), s);
        r := PlanTwo(h, s, target, ["pull", target.service], Some(RECREATE + [target.service]));
    }
  }

  /** Pull, then recreate; the recreate is built after the pull when its arguments are not known yet. */
  method PlanTwo(h: HostFacts, s: Store, target: Target, pull: seq<string>, recreate: Option<seq<string>>)
    returns (r: Result<ComposePlan, Refusal>)
    requires s.runtime in h.paths
    ensures r.Ok? ==> r.value.store == s && r.value.target == target && |r.value.stages| == 2 && PlannedFor(h, r.value)
    ensures r.Ok? ==> StepFor(h, s, target, pull, r.value.stages[0].attempts) && !r.value.stages[0].builtLate
    ensures r.Ok? && recreate.Some? ==> StepFor(h, s, target, recreate.value, r.value.stages[1].attempts)
    ensures r.Ok? ==> r.value.stages[1].builtLate == recreate.None?
    ensures r.Err? ==> OutOfReach(h, s)
  {
    var first := ComposeAttempts(h, s, target, pull);
    match first {
      case Err(e) => return Err(e);
      case Ok(pulls) =>
        match recreate {
          case None =>
            return Ok(ComposePlan([OpStage("pull", pulls, false, ""), OpStage("recreate", [], true, IDLE)], s, target));
          case Some(args) =>
            var second := ComposeAttempts(h, s, target, args);
            match second {
              case Err(e) => return Err(e);
              case Ok(recreates) =>
                return Ok(ComposePlan(
                  [OpStage("pull", pulls, false, ""), OpStage("recreate", recreates, false, "")], s, target));
            }
        }
    }
  }

  lemma ChosenStoreExists(h: HostFacts, fallback: Option<Store>, s: Store)
    requires Chooses(h, fallback, s)
    requires fallback.Some? ==> fallback.value.runtime in h.paths
    ensures s.runtime in h.paths
    ensures forall t :: Chooses(h, fallback, t) ==> t == s
  {
    if Holding(h) != [] {
      assert s in Holding(h);
    }
  }

  /** Every stage of a verb's plan is a step for the plan's store, or is built later for it. */
  lemma VerbPlansOneStore(h: HostFacts, verb: string, p: ComposePlan)
    requires PlansVerb(h, verb, p)
    ensures PlannedFor(h, p)
  {
  }

  /** Each attempt of the plan, and each a later build on a later host adds to it, reaches the plan's store. */
  lemma PlanAddressesOneStore(h: HostFacts, p: ComposePlan, k: nat, later: HostFacts, args: seq<string>, built: seq<Attempt>)
    requires h.Valid() && PlannedFor(h, p) && k < |p.stages|
    requires later.Valid()
    requires p.stages[k].builtLate ==> StepFor(later, p.store, p.target, args, built)
    ensures if p.stages[k].builtLate then forall a :: a in built ==> Addresses(later, a) == Some(p.store)
            else forall a :: a in p.stages[k].attempts ==> Addresses(h, a) == Some(p.store)
    ensures !p.stages[k].builtLate ==> p.stages[k].attempts != []
  {
    if p.stages[k].builtLate {
      StepAddressesItsStore(later, p.store, p.target, args, built);
    } else {
      var now :| StepFor(h, p.store, p.target, now, p.stages[k].attempts);
      StepAddressesItsStore(h, p.store, p.target, now, p.stages[k].attempts);
    }
  }

  // ------------------------------------------------------------------- safety

  /** The stores that really hold the project; a listing that answers tells the truth. */
  ghost predicate Truthful(h: HostFacts, holders: set<Store>) {
    forall s :: s in ComposeStoreList(h) && h.listing(s).Ok? ==> (s in holders <==> h.listing(s).value != [])
  }

  ghost predicate AtMostOne(holders: set<Store>) {
    forall a, b :: a in holders && b in holders ==> a == b
  }

  /**
   Running commands that all reach one store leaves every other store as it was;
   in that store it may create, keep or remove the project.
   */
  ghost predicate MayBecome(holders: set<Store>, s: Store, after: set<Store>) {
    after - {s} == holders - {s}
  }

  /**
   A run of a plan, ended or under way. worlds[k] is what the host answers when
   stage k is built late; states are the stores that hold the project, before the
   first command and after each one that ran.
   */
  datatype PlanRun = PlanRun(
    reports: seq<Report>, expired: bool, worlds: seq<HostFacts>, states: seq<set<Store>>)

  /** The host a stage was worked out on. */
  ghost function WorldOf(h: HostFacts, p: ComposePlan, run: PlanRun, k: nat): HostFacts
    requires k < |p.stages| == |run.worlds|
  {
    if p.stages[k].builtLate then run.worlds[k] else h
  }

  /** A late stage is what the recreate of an update comes to on the host of its time. */
  ghost predicate BuiltForRecreate(later: HostFacts, p: ComposePlan, report: Report) {
    report.Executed? ==>
      && later.Valid() && later.listing(p.store).Ok?
      && var args := RecreateArgs(later, later.listing(p.store).value);
         args.Some? && StepFor(later, p.store, p.target, args.value, report.attempts)
  }

  /** A command changes at most the store it reaches; one that reaches no known store might change any. */
  ghost predicate MayChange(h: HostFacts, a: Attempt, before: set<Store>, after: set<Store>) {
    match Addresses(h, a)
    case None => true
    case Some(s) => MayBecome(before, s, after)
  }

  /** The run follows the plan from these holders on, command by command. */
  ghost predicate Runs(h: HostFacts, p: ComposePlan, holders: set<Store>, run: PlanRun) {
    && Follows(p.stages, run.reports, run.expired) && |run.worlds| == |p.stages|
    && (forall k :: 0 <= k < |run.reports| && p.stages[k].builtLate ==> BuiltForRecreate(run.worlds[k], p, run.reports[k]))
    && var commands := Commands(run.reports);
       && |run.states| == |commands| + 1 && run.states[0] == holders
       && forall n :: 0 <= n < |commands| && commands[n].stage < |p.stages| ==>
            MayChange(WorldOf(h, p, run, commands[n].stage), commands[n].attempt, run.states[n], run.states[n + 1])
  }

  /** Every command a run of the plan executes, of late stages too, reaches the plan's store and no other. */
  lemma RunAddressesOneStore(h: HostFacts, p: ComposePlan, holders: set<Store>, run: PlanRun, n: nat)
    requires h.Valid() && PlannedFor(h, p) && Runs(h, p, holders, run) && n < |Commands(run.reports)|
    ensures var ran := Commands(run.reports)[n];
            ran.stage < |p.stages| && Addresses(WorldOf(h, p, run, ran.stage), ran.attempt) == Some(p.store)
  {
    CommandsAreAttempts(p.stages, run.reports, run.expired, n);
    var k := Commands(run.reports)[n].stage;
    assert ReportOf(k, p.stages[k], run.reports[k], run.expired);
    if p.stages[k].builtLate {
      var later := run.worlds[k];
      var args := RecreateArgs(later, later.listing(p.store).value).value;
      StepAddressesItsStore(later, p.store, p.target, args, run.reports[k].attempts);
    } else {
      PlanAddressesOneStore(h, p, k, h, [], []);
    }
  }

  /** So at every point of the run all other stores are as they were. */
  lemma {:induction false} RunTouchesOneStore(h: HostFacts, p: ComposePlan, holders: set<Store>, run: PlanRun, n: nat)
    requires h.Valid() && PlannedFor(h, p) && Runs(h, p, holders, run) && n < |run.states|
    ensures MayBecome(holders, p.store, run.states[n])
  {
    if n > 0 {
      var before, now := run.states[n - 1], run.states[n];
      RunTouchesOneStore(h, p, holders, run, n - 1);
      RunAddressesOneStore(h, p, holders, run, n - 1);
      assert now - {p.store} == before - {p.store} == holders - {p.store};
    }
  }

  /** Nothing that a run may come to holds the project in two stores. */
  ghost predicate NeverTwo(h: HostFacts, p: ComposePlan, holders: set<Store>) {
    forall run: PlanRun, n: nat :: Runs(h, p, holders, run) && n < |run.states| ==> AtMostOne(run.states[n])
  }

  /**
   One project, one store. When at most one store holds the project, no run of
   the plan can ever bring it to two, whatever its commands do in the stores they
   reach, exactly when every store that holds it either answered its listing or is
   the plan's own store.
   */
  lemma RunKeepsOneStore(h: HostFacts, fallback: Option<Store>, p: ComposePlan, holders: set<Store>)
    requires h.Valid() && PlannedFor(h, p) && Chooses(h, fallback, p.store)
    requires Truthful(h, holders) && AtMostOne(holders)
    ensures NeverTwo(h, p, holders) <==> forall s :: s in holders ==> s == p.store || Listed(h, s)
  {
    if forall s :: s in holders ==> s == p.store || Listed(h, s) {
      HoldersAreTheStore(h, fallback, p, holders);
      forall run: PlanRun, n: nat | Runs(h, p, holders, run) && n < |run.states|
        ensures AtMostOne(run.states[n])
      {
        RunTouchesOneStore(h, p, holders, run, n);
        StaysOne(holders, p.store, run.states[n]);
      }
    } else {
      var s :| s in holders && s != p.store && !Listed(h, s);
      var after := holders + {p.store};
      var run := FirstCommandRun(h, p, holders);
      assert s in after && p.store in after && run.states[1] == after;
      assert !AtMostOne(run.states[1]);
    }
  }

  lemma HoldersAreTheStore(h: HostFacts, fallback: Option<Store>, p: ComposePlan, holders: set<Store>)
    requires Truthful(h, holders) && Chooses(h, fallback, p.store)
    requires forall s :: s in holders ==> s == p.store || Listed(h, s)
    ensures forall s :: s in holders ==> s == p.store
  {
    forall s | s in holders
      ensures s == p.store
    {
      if Listed(h, s) {
        assert s in Holding(h);
      }
    }
  }

  lemma StaysOne(holders: set<Store>, s: Store, after: set<Store>)
    requires MayBecome(holders, s, after) && forall t :: t in holders ==> t == s
    ensures AtMostOne(after)
  {
    forall t | t in after
      ensures t == s
    {
      assert t == s || t in after - {s};
    }
  }

  /** The first attempt of the first stage runs, succeeds, and creates the project where it reaches. */
  lemma FirstCommandRun(h: HostFacts, p: ComposePlan, holders: set<Store>) returns (run: PlanRun)
    requires h.Valid() && PlannedFor(h, p)
    ensures Runs(h, p, holders, run) && |run.states| == 2 && run.states[1] == holders + {p.store}
  {
    hide Addresses, StepFor, Follows, Commands;
    PlanAddressesOneStore(h, p, 0, h, [], []);
    var report := FirstReport(p.stages[0].attempts);
    FirstReportFollows(p.stages);
    var after := holders + {p.store};
    assert after - {p.store} == holders - {p.store};
    run := PlanRun([report], false, seq(|p.stages|, i => h), [holders, after]);
    assert MayChange(WorldOf(h, p, run, 0), Commands([report])[0].attempt, holders, after);
  }

  ghost function FirstReport(attempts: seq<Attempt>): Report
    requires attempts != []
  {
    Executed(attempts, [Ran(0, attempts[0], Answered("", "", 0, true))], Answered("", "", 0, true))
  }

  lemma FirstReportFollows(plan: seq<OpStage>)
    requires plan != [] && !plan[0].builtLate && plan[0].attempts != []
    ensures var report := FirstReport(plan[0].attempts);
            Follows(plan, [report], false) && Commands([report]) == [Ran(0, plan[0].attempts[0], Answered("", "", 0, true))]
  {
    var report := FirstReport(plan[0].attempts);
    assert Commands([report][..0]) == [];
    assert ReportOf(0, plan[0], report, false);
  }

  /** A project found in two stores is refused by every planner. */
  lemma TwoStoresAreRefused(h: HostFacts, holders: set<Store>, a: Store, b: Store)
    requires Truthful(h, holders)
    requires a != b && a in holders && b in holders && Listed(h, a) && Listed(h, b)
    ensures forall fallback, s :: !Chooses(h, fallback, s)
  {
    var found := Holding(h);
    assert a in found && b in found;
    var i :| 0 <= i < |found| && found[i] == a;
    var j :| 0 <= j < |found| && found[j] == b;
    assert i != j;
  }

  /**
   Why the answered listing matters: docker's own store holds the project but
   does not answer (it is not elevated, so it is skipped), and `compose up` is
   planned for podman's own store, where it would create a second copy.
   */
  lemma UnansweredStoreIsNotSeen(h: HostFacts, p: ComposePlan)
    requires h.paths == map[Podman := "/usr/bin/podman", Docker := "/usr/bin/docker"] && !h.hasSudo
    requires h.listing(Store(Podman, false)) == Ok([]) && h.listing(Store(Docker, false)).Err?
    requires h.Valid() && PlannedFor(h, p) && Chooses(h, None, p.store)
    ensures p.store == Store(Podman, false)
    ensures var holders := {Store(Docker, false)};
            && Truthful(h, holders) && AtMostOne(holders) && !NeverTwo(h, p, holders)
  {
    var stores := ComposeStoreList(h);
    assert stores == [Store(Podman, false), Store(Docker, false)];
    FilterNone(stores, set s | s in stores && ListsProject(h, s));
    var holders := {Store(Docker, false)};
    assert Truthful(h, holders) && Store(Docker, false) in holders;
    RunKeepsOneStore(h, None, p, holders);
  }
}
