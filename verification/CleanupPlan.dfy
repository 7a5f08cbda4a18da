/**
 Which recorded resources may be deleted (src/cleanup/plan.rs). A path is the
 sequence of its components below the root; a resource is known by its place in
 the journal, as the program knows it by its address.
 */
module CleanupPlan {
  import opened Common

  type Path = seq<string>

  datatype Identity = PathOf(path: Path) | Runtime(runtime: string, identity: string)

  datatype Cleanup = Pending | Removed | Preserved | RetryRequired

  datatype Ownership = Exclusive | Shared | Unknown

  datatype ResourceKind =
    | InstallationDirectory | Log | Cache | Data | Container | Image | Volume | Executable | Symlink | ShellSetup

  datatype Filesystem = Filesystem(root: Path, symlink: bool, created: Option<nat>)

  datatype Resource = Resource(
    kind: ResourceKind,
    identity: Identity,
    ownership: Ownership,
    cleanup: Cleanup,
    filesystem: Option<Filesystem>)

  datatype Installation = Installation(resources: seq<Resource>, retained: seq<Identity>)

  /** `setup` lists the links of a standalone executable. */
  datatype Journal = Journal(installations: map<string, Installation>, setup: seq<Resource>)

  type Ledger = map<Path, Resource>

  datatype Place = Entry(id: string, index: nat) | Setup(index: nat)

  datatype Reason =
    | CoordinationMetadata | ApplicationArtifact | NotExclusive | OtherKind | RuntimeResource | ProjectDirectory
    | NoProof | NoBirth | NotALink | OutsideRoot | Referenced | OrdinaryUninstall

  datatype Preservation = Preservation(resource: Identity, reason: Reason)

  // ------------------------------------------------------------ the journal

  predicate Live(r: Resource) {
    r.cleanup != Removed
  }

  predicate IsPlace(j: Journal, p: Place) {
    match p
    case Entry(id, index) => id in j.installations && index < |j.installations[id].resources|
    case Setup(index) => index < |j.setup|
  }

  function At(j: Journal, p: Place): Resource
    requires IsPlace(j, p)
  {
    match p
    case Entry(id, index) => j.installations[id].resources[index]
    case Setup(index) => j.setup[index]
  }

  function Places(j: Journal): set<Place> {
    (set id, i | id in j.installations && 0 <= i < |j.installations[id].resources| :: Entry(id, i))
    + (set i | 0 <= i < |j.setup| :: Setup(i))
  }

  /** The live resources of that identity. */
  function References(j: Journal, identity: Identity): set<Place> {
    set p | p in Places(j) && IsPlace(j, p) && Live(At(j, p)) && At(j, p).identity == identity
  }

  // ------------------------------------------------------------ preservation

  predicate Overlaps(left: Identity, right: Identity) {
    if left.PathOf? && right.PathOf? then right.path <= left.path || left.path <= right.path else left == right
  }

  predicate ArtifactOverlaps(ledger: Ledger, identity: Identity) {
    exists path :: path in ledger && Live(ledger[path]) && Overlaps(identity, ledger[path].identity)
  }

  predicate Retained(j: Journal, identity: Identity) {
    exists id :: id in j.installations && RetainedBy(j.installations[id], identity)
  }

  predicate RetainedBy(entry: Installation, identity: Identity) {
    exists i :: 0 <= i < |entry.retained| && Overlaps(identity, entry.retained[i])
  }

  /** An overlapping live resource of another installation, or one of the same that is not exclusive. */
  predicate Conflicts(j: Journal, p: Place)
    requires IsPlace(j, p)
  {
    exists id :: id in j.installations && ConflictsWith(j.installations[id], p.Entry? && p.id == id, At(j, p).identity)
  }

  predicate ConflictsWith(entry: Installation, owner: bool, identity: Identity) {
    exists i :: 0 <= i < |entry.resources| && Conflicting(entry.resources[i], owner, identity)
  }

  predicate Conflicting(other: Resource, owner: bool, identity: Identity) {
    Live(other) && (!owner || other.ownership != Exclusive) && Overlaps(identity, other.identity)
  }

  predicate IsCoordinationMetadata(identity: Identity) {
    identity.PathOf? && identity.path != [] && Last(identity.path) in {"ownership.json", "artifacts.json", "self-removal.json"}
  }

  /** What can be said against deleting a resource by itself. */
  function OwnReason(r: Resource): Option<Reason> {
    if r.ownership != Exclusive then Some(NotExclusive)
    else if r.kind !in {InstallationDirectory, Log, Cache, Data, Symlink} then Some(OtherKind)
    else if !r.identity.PathOf? then Some(RuntimeResource)
    else if ".ripmcp" in r.identity.path then Some(ProjectDirectory)
    else if r.filesystem.None? then Some(NoProof)
    else if r.filesystem.value.created.None? then Some(NoBirth)
    else if r.kind.Symlink? && !r.filesystem.value.symlink then Some(NotALink)
    else if !(r.filesystem.value.root < r.identity.path) then Some(OutsideRoot)
    else None
  }

  /** Why the resource must stay, or nothing. The first reason counts. */
  function PreservedFor(j: Journal, p: Place, ledger: Ledger): Option<Reason>
    requires IsPlace(j, p)
  {
    var r := At(j, p);
    if IsCoordinationMetadata(r.identity) then Some(CoordinationMetadata)
    else if ArtifactOverlaps(ledger, r.identity) then Some(ApplicationArtifact)
    else if OwnReason(r).Some? then OwnReason(r)
    else if |References(j, r.identity)| != 1 || Retained(j, r.identity) || Conflicts(j, p) then Some(Referenced)
    else None
  }

  // ---------------------------------------------------------------- the plan

  /** Components of the path, the root included. */
  function Depth(identity: Identity): nat {
    if identity.PathOf? then |identity.path| + 1 else 0
  }

  function Insert(x: Identity, sorted: seq<Identity>): seq<Identity> {
    if sorted == [] || Depth(sorted[0]) <= Depth(x) then [x] + sorted else [sorted[0]] + Insert(x, sorted[1..])
  }

  /** The stable sort by descending depth. */
  function DeepestFirst(s: seq<Identity>): seq<Identity> {
    if s == [] then [] else Insert(s[0], DeepestFirst(s[1..]))
  }

  function Why(j: Journal, p: Place, clean: bool, ledger: Ledger): Option<Reason>
    requires IsPlace(j, p)
  {
    if clean then PreservedFor(j, p, ledger) else Some(OrdinaryUninstall)
  }

  /** The live resources without a reason to stay, among the first `n`, in journal order. */
  function Candidates(j: Journal, id: string, clean: bool, ledger: Ledger, n: nat): seq<Identity>
    requires id in j.installations && n <= |j.installations[id].resources|
  {
    if n == 0 then []
    else
      var r := j.installations[id].resources[n - 1];
      Candidates(j, id, clean, ledger, n - 1)
      + if Live(r) && Why(j, Entry(id, n - 1), clean, ledger).None? then [r.identity] else []
  }

  function Stays(j: Journal, id: string, clean: bool, ledger: Ledger, n: nat): seq<Preservation>
    requires id in j.installations && n <= |j.installations[id].resources|
  {
    if n == 0 then []
    else
      var r := j.installations[id].resources[n - 1];
      var why := Why(j, Entry(id, n - 1), clean, ledger);
      Stays(j, id, clean, ledger, n - 1) + if Live(r) && why.Some? then [Preservation(r.identity, why.value)] else []
  }

  function Deletable(j: Journal, id: string, clean: bool, ledger: Ledger): seq<Identity>
    requires id in j.installations
  {
    DeepestFirst(Candidates(j, id, clean, ledger, |j.installations[id].resources|))
  }

  method PlanResources(j: Journal, id: string, clean: bool, ledger: Ledger)
    returns (deletable: seq<Identity>, preserved: seq<Preservation>)
    requires id in j.installations
    ensures deletable == Deletable(j, id, clean, ledger)
    ensures preserved == Stays(j, id, clean, ledger, |j.installations[id].resources|)
    ensures !clean ==> deletable == []
    ensures !clean ==> forall k :: 0 <= k < |preserved| ==> preserved[k].reason == OrdinaryUninstall
  {
    hide PreservedFor;
    deletable, preserved := [], [];
    var resources := j.installations[id].resources;
    for i := 0 to |resources|
      invariant deletable == Candidates(j, id, clean, ledger, i)
      invariant preserved == Stays(j, id, clean, ledger, i)
      invariant !clean ==> deletable == []
      invariant !clean ==> forall k :: 0 <= k < |preserved| ==> preserved[k].reason == OrdinaryUninstall
    {
      if resources[i].cleanup != Removed {
        var reason := Some(OrdinaryUninstall);
        if clean {
          reason := PreservedFor(j, Entry(id, i), ledger);
        }
        if reason.Some? {
          preserved := preserved + [Preservation(resources[i].identity, reason.value)];
        } else {
          deletable := deletable + [resources[i].identity];
        }
      }
    }
    deletable := DeepestFirst(deletable);
  }
}
