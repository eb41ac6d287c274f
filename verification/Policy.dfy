/** What a task's grant allows without asking. */
module Policy {
  import opened Ledger
  import opened Paths

  /** A host with its connection and identity settings; its digest is injective. */
  datatype Host = Host(id: string, settings: string)

  datatype Grant = Grant(
    id: nat, hostIds: seq<string>, identities: map<string, Host>, operations: seq<string>,
    resources: seq<string>, localRoots: seq<string>, expiresAt: int)

  datatype TaskStatus =
    | IsReady | IsRunning | AwaitingApproval | Interrupted | Blocked | HasFailed
    | NeedsVerification | Completed

  /** `current` says whether the task was made, or resumed, under this runtime version. */
  datatype Task = Task(id: string, conversation: bool, current: bool, status: TaskStatus, grant: Grant)

  datatype Approval = Approval(request: Request, grantId: nat, approved: bool, decided: bool)

  datatype Verdict = Allowed | Ask | Denied

  const REMOTE_OPERATIONS: set<string> := {
    "upload_local", "file_hash", "terminal_connect", "terminal_read", "terminal_write", "observe",
    "service_status", "logs", "file_read", "file_write", "service_restart", "package_install", "shell"}

  const FILE_OPERATIONS: set<string> := {"file_read", "file_write", "upload_local", "file_hash"}

  const SCOPED_OPERATIONS: set<string> :=
    {"file_hash", "file_read", "file_write", "service_restart", "package_install"}

  predicate IsHexDigit(c: char) { '0' <= c <= '9' || 'a' <= c <= 'f' || 'A' <= c <= 'F' }

  predicate IsSha256(s: string) { |s| == 64 && forall i | 0 <= i < |s| :: IsHexDigit(s[i]) }

  predicate UploadRequest(r: Request) {
    Valid(r.localPath) && IsSha256(r.sourceHash)
    && (r.uploadMode == "" || r.uploadMode == "new" || r.uploadMode == "replace" || r.uploadMode == "resume")
  }

  /** A request that names a host is measured against the grant of its task. */
  function Evaluate(t: Task, h: Host, r: Request, now: int): Verdict {
    if t.id != r.taskId || r.hostId !in t.grant.hostIds then Denied
    else if now >= t.grant.expiresAt then Denied
    else if h.id !in t.grant.identities || t.grant.identities[h.id] != h then Denied
    else if r.operation !in REMOTE_OPERATIONS then Denied
    else if '\0' in r.resource || '\0' in r.command then Denied
    else if r.operation in FILE_OPERATIONS && (!Clean(r.resource) || r.resource == "/") then Denied
    else if r.operation == "upload_local" then if UploadRequest(r) then Ask else Denied
    else if r.operation == "shell" || r.operation == "terminal_write" then Ask
    else if r.operation !in t.grant.operations then Ask
    else if r.operation in SCOPED_OPERATIONS then if r.resource in t.grant.resources then Allowed else Ask
    else Allowed
  }

  predicate ApprovedFor(a: Approval, t: Task, r: Request) {
    a.decided && a.approved && a.request == r && a.grantId == t.grant.id && a.request.taskId == t.id
  }

  /** A request for a file of this machine. */
  function EvaluateLocal(t: Task, r: Request, now: int): Verdict {
    if r.taskId != t.id || r.hostId != "" || !IsLocal(r.operation) then Denied
    else if now >= t.grant.expiresAt then Denied
    else if !Valid(r.localPath) then Denied
    else if r.readOffset < 0 || (r.operation != "local_read" && r.readOffset != 0) then Denied
    else if exists i :: 0 <= i < |t.grant.localRoots| && InRoot(t.grant.localRoots[i], r.localPath) then Allowed
    else Ask
  }

  /** Roots are clean when they enter a grant. */
  predicate InRoot(root: string, p: string)
    requires Valid(p)
  {
    Clean(root) && Within(root, p)
  }

  /** What always takes an exact acceptance by the user. */
  predicate AlwaysAsked(op: string) { op == "shell" || op == "terminal_write" || op == "upload_local" }

  // ------------------------------------------------- the operations by name

  /** Operations on a host that change nothing there. */
  predicate LooksOnly(op: string) {
    || op == "observe" || op == "service_status" || op == "logs"
    || op == "file_read" || op == "file_hash" || op == "terminal_connect" || op == "terminal_read"
  }

  /** Operations on a host that may change it. */
  predicate MayAlter(op: string) {
    || op == "shell" || op == "terminal_write" || op == "upload_local"
    || op == "file_write" || op == "service_restart" || op == "package_install"
  }

  /** Operations on the machine of the user. */
  predicate StaysHere(op: string) { op == "local_stat" || op == "local_list" || op == "local_read" }

  /** Operations on one thing that the grant has to name. */
  predicate NamesAThing(op: string) {
    || op == "file_hash" || op == "file_read" || op == "file_write"
    || op == "service_restart" || op == "package_install"
  }

  /** Operations on a file of the host. */
  predicate NamesAPath(op: string) { op == "file_hash" || op == "file_read" || op == "file_write" || op == "upload_local" }

  /** What an upload has to say of the file it sends. */
  predicate DescribesUpload(r: Request) {
    && Valid(r.localPath) && |r.sourceHash| == 64
    && (forall c | c in r.sourceHash :: c in "0123456789abcdefABCDEF")
    && (r.uploadMode in {"", "new", "replace", "resume"})
  }

  /** The predicates that are tested are about these operations, and there are no others. */
  lemma OperationsAreThese(op: string)
    ensures op in REMOTE_OPERATIONS <==> LooksOnly(op) || MayAlter(op)
    ensures !(LooksOnly(op) && MayAlter(op)) && (StaysHere(op) ==> op !in REMOTE_OPERATIONS)
    ensures Mutates(op) <==> MayAlter(op)
    ensures IsLocal(op) <==> StaysHere(op)
  {
  }

  /** A request the user may be asked about at all. */
  predicate Admissible(t: Task, h: Host, r: Request, now: int) {
    && r.taskId == t.id && r.hostId in t.grant.hostIds && now < t.grant.expiresAt
    && (h.id, h) in t.grant.identities.Items && (LooksOnly(r.operation) || MayAlter(r.operation))
    && '\0' !in r.resource && '\0' !in r.command
    && (NamesAPath(r.operation) ==> Clean(r.resource) && r.resource != "/")
    && (r.operation == "upload_local" ==> DescribesUpload(r))
  }

  /** The automatic scope of a grant, said without the order of the tests. */
  predicate InScope(t: Task, h: Host, r: Request, now: int) {
    && r.taskId == t.id && r.hostId in t.grant.hostIds && now < t.grant.expiresAt
    && (h.id, h) in t.grant.identities.Items
    && r.operation in t.grant.operations && (LooksOnly(r.operation) || MayAlter(r.operation)) && !AlwaysAsked(r.operation)
    && '\0' !in r.resource && '\0' !in r.command
    && (NamesAThing(r.operation) ==> r.resource in t.grant.resources)
    && (NamesAPath(r.operation) ==> Clean(r.resource) && r.resource != "/")
  }

  lemma UploadIsDescribed(r: Request)
    ensures UploadRequest(r) <==> DescribesUpload(r)
  {
    hide Valid;
    if |r.sourceHash| == 64 {
      HexDigitsAre(r.sourceHash);
    }
  }

  lemma HexDigitsAre(s: string)
    ensures (forall i | 0 <= i < |s| :: IsHexDigit(s[i])) <==> forall c | c in s :: c in "0123456789abcdefABCDEF"
  {
    forall c: char
      ensures IsHexDigit(c) <==> c in "0123456789abcdefABCDEF"
    {
      HexDigitIs(c);
    }
    assert forall i | 0 <= i < |s| :: s[i] in s;
  }

  lemma HexDigitIs(c: char)
    ensures IsHexDigit(c) <==> c in "0123456789abcdefABCDEF"
  {
  }

  lemma ScopeIsExact(t: Task, h: Host, r: Request, now: int)
    ensures Evaluate(t, h, r, now).Allowed? <==> InScope(t, h, r, now)
    ensures Evaluate(t, h, r, now).Denied? <==> !Admissible(t, h, r, now)
  {
    hide Clean, UploadRequest, DescribesUpload;
    UploadIsDescribed(r);
    assert h.id in t.grant.identities && t.grant.identities[h.id] == h <==> (h.id, h) in t.grant.identities.Items;
  }

  /** Nothing is read, written, hashed, restarted or installed automatically that the grant does not name. */
  lemma NamedThingsAreGranted(t: Task, h: Host, r: Request, now: int)
    requires r.operation in {"file_hash", "file_read", "file_write", "service_restart", "package_install"}
    ensures Evaluate(t, h, r, now).Allowed? ==> r.resource in t.grant.resources && r.operation in t.grant.operations
  {
    ScopeIsExact(t, h, r, now);
  }

  /** A local request is automatic exactly below a granted root, with nothing else wrong. */
  lemma LocalScopeIsExact(t: Task, r: Request, now: int)
    ensures EvaluateLocal(t, r, now).Allowed? <==>
              && r.taskId == t.id && r.hostId == "" && StaysHere(r.operation) && now < t.grant.expiresAt
              && Valid(r.localPath) && r.readOffset >= 0 && (r.readOffset > 0 ==> r.operation == "local_read")
              && exists i :: 0 <= i < |t.grant.localRoots| && Clean(t.grant.localRoots[i])
                             && Components(t.grant.localRoots[i]) <= Components(r.localPath)
    ensures EvaluateLocal(t, r, now).Denied? <==>
              !(r.taskId == t.id && r.hostId == "" && StaysHere(r.operation) && now < t.grant.expiresAt
                && Valid(r.localPath) && r.readOffset >= 0 && (r.readOffset > 0 ==> r.operation == "local_read"))
  {
    if Valid(r.localPath) {
      forall i | 0 <= i < |t.grant.localRoots| && Clean(t.grant.localRoots[i])
        ensures InRoot(t.grant.localRoots[i], r.localPath)
                <==> Components(t.grant.localRoots[i]) <= Components(r.localPath)
      {
        WithinIsPrefix(t.grant.localRoots[i], r.localPath);
      }
    }
  }
}
