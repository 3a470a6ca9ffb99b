/**
 Credential installs into pods (`src/credentials.rs`): the files a conversation's pod gets, installs that
 take turns on their conversation's lock while the store changes under them, and rounds over the live pods
 that answer before all their installs end. Every read of the store is a step of its own.

 As `pod_writes` promises, nothing an install started still acts in its pod once its lock is released.
 */
module Credentials {
  import opened Sequences
  import opened Strings
  import opened Wrappers

  const GIT_SSH := "git-ssh"

  // ----- The store and the files -----

  datatype Identity = Identity(name: string, email: string)

  /**
   What the database holds: keys in order, the identity, the secrets by name, each agent's credentials
   column (no entry for the user's own conversation, `None` for a row from before the column), and the
   names each conversation's persona lists.
   */
  datatype Store = Store(keys: seq<(string, string)>, identity: Identity, secrets: map<string, string>,
                         agents: map<nat, Option<set<string>>>, personas: map<nat, set<string>>)

  datatype Path = KeyFile(name: string) | SshConfig | GitConfig | SecretFile(name: string)

  type Files = map<Path, string>

  function WithNewline(key: string): string {
    if key != "" && key[|key| - 1] == '\n' then key else key + "\n"
  }

  function KeyFiles(keys: seq<(string, string)>): Files {
    if keys == [] then map[]
    else KeyFiles(keys[..|keys| - 1])[KeyFile(keys[|keys| - 1].0) := WithNewline(keys[|keys| - 1].1)]
  }

  function SshConfigText(keys: seq<(string, string)>): string {
    if keys == [] then "Host *\n    StrictHostKeyChecking accept-new\n"
    else SshConfigText(keys[..|keys| - 1]) + "    IdentityFile /etc/smelt/keys/" + keys[|keys| - 1].0 + "\n"
  }

  function Quoted(value: string): string {
    "\"" + Escaped(value) + "\""
  }

  function EscapedChar(c: char): string {
    if c == '\\' || c == '"' then ['\\', c] else [c]
  }

  function Escaped(value: string): string {
    if value == "" then "" else EscapedChar(value[0]) + Escaped(value[1..])
  }

  function GitConfigText(identity: Identity): string {
    if identity.name == "" && identity.email == "" then ""
    else "[user]\n\tname = " + Quoted(identity.name) + "\n\temail = " + Quoted(identity.email) + "\n"
  }

  /** `pod_git_files`. */
  function GitFiles(keys: seq<(string, string)>, identity: Identity): Files {
    KeyFiles(keys)[SshConfig := SshConfigText(keys)][GitConfig := GitConfigText(identity)]
  }

  function SecretFiles(secrets: map<string, string>, granted: set<string>): Files {
    map name | name in secrets && name in granted :: SecretFile(name) := secrets[name]
  }

  predicate HoldsKey(keys: seq<(string, string)>, name: string) {
    exists i | 0 <= i < |keys| :: keys[i].0 == name
  }

  // ----- An install's reads -----

  /**
   An install reads names from the persona; a starting child's takes them from its own snapshot, and reads them first.
   */
  datatype Kind = Ordinary | Reconcile(snapshot: Option<set<string>>)

  /** How many reads decide and fill an install's files. */
  const READS: nat := 7

  /** Which read answers which question: an ordinary install asks Rule G first, a reconcile Rule S. */
  datatype Asked = Asked(row: nat, keyStored: nat, names: nat, backed: nat)

  function AskedBy(kind: Kind): (asked: Asked)
    ensures asked.row < READS && asked.keyStored < READS && asked.names < READS && asked.backed < READS
  {
    if kind.Ordinary? then Asked(0, 1, 2, 3) else Asked(2, 3, 0, 1)
  }

  const KEYS_READ: nat := 4
  const IDENTITY_READ: nat := 5
  const SECRETS_READ: nat := 6

  /** Rule G: the user's own conversation gets the key if one is stored, an agent if its column says so. */
  predicate GitSshGranted(row: Store, stored: Store, conversation: nat) {
    if conversation !in row.agents then stored.keys != []
    else row.agents[conversation].None? || GIT_SSH in row.agents[conversation].value
  }

  function PersonaNames(kind: Kind, store: Store, conversation: nat): set<string> {
    if kind.Reconcile? && kind.snapshot.Some? then kind.snapshot.value
    else if conversation in store.personas then store.personas[conversation] else {}
  }

  /** Each read was of one of the first `versions` versions. */
  predicate Known(seen: seq<nat>, versions: nat) {
    forall x | 0 <= x < |seen| :: seen[x] < versions
  }

  /** The files an install writes, each read answered by the store as it was then. */
  function FilesFor(history: seq<Store>, kind: Kind, conversation: nat, seen: seq<nat>): Files
    requires |seen| == READS && Known(seen, |history|)
  {
    var asked := AskedBy(kind);
    var gitSsh := GitSshGranted(history[seen[asked.row]], history[seen[asked.keyStored]], conversation);
    var names := PersonaNames(kind, history[seen[asked.names]], conversation);
    var granted := set n | n in names && n in history[seen[asked.backed]].secrets;
    var keys := if gitSsh then history[seen[KEYS_READ]].keys else [];
    GitFiles(keys, history[seen[IDENTITY_READ]].identity) + SecretFiles(history[seen[SECRETS_READ]].secrets, granted)
  }

  // ----- The system -----

  datatype Phase = Waiting | Holding | Ended(ok: bool)

  /** `seen` says which version of the store each read so far was answered by. */
  datatype Install = Install(pod: Option<nat>, conversation: nat, kind: Kind, phase: Phase, seen: seq<nat>)

  datatype Pod = Pod(conversation: nat, live: bool, files: Files)

  /** What was written, and whether all of it was. */
  datatype Write = Write(install: nat, pod: nat, seen: seq<nat>, files: Files, complete: bool)

  /** A round over the pods listed once the store was at version `since`; `started` are their installs, in order. */
  datatype Round = Round(pods: seq<nat>, since: nat, started: seq<nat>, inFlight: seq<nat>, failed: seq<nat>,
                         answer: Option<seq<nat>>)

  /** Every version of the store, in order, and all that was written into pods. */
  datatype System = System(history: seq<Store>, pods: map<nat, Pod>, installs: seq<Install>, rounds: seq<Round>,
                           log: seq<Write>)

  datatype Step =
    | Change(store: Store)
    | AddPod(pod: nat, conversation: nat)
    | EndPod(pod: nat)
    | BeginInstall(pod: nat)
    | BeginReconcile(conversation: nat, snapshot: Option<set<string>>)
    | Acquire(install: nat, newest: nat)
    | Read(install: nat)
    | WritePart(install: nat, files: Files)
    | WriteAll(install: nat)
    | Fail(install: nat)
    | ListPods(pods: seq<nat>)
    | StartNext(round: nat)
    | FinishOne(round: nat, k: nat)
    | Answer(round: nat)

  const INSTALLS_AT_ONCE: nat := 8

  predicate LockFree(s: System, conversation: nat) {
    forall i | 0 <= i < |s.installs| && s.installs[i].phase.Holding? :: s.installs[i].conversation != conversation
  }

  predicate IsLive(s: System, pod: nat) {
    pod in s.pods && s.pods[pod].live
  }

  predicate HasPod(s: System, conversation: nat) {
    exists p | p in s.pods :: s.pods[p].live && s.pods[p].conversation == conversation
  }

  /** The pod a reconcile writes: the newest should two of a conversation ever coexist. */
  predicate IsNewest(s: System, conversation: nat, pod: nat) {
    && IsLive(s, pod) && s.pods[pod].conversation == conversation
    && forall p | p in s.pods && s.pods[p].live && s.pods[p].conversation == conversation :: p <= pod
  }

  /** An install of a pod, or one already over when the pod has no row. */
  function NewInstall(s: System, pod: nat): Install {
    if IsLive(s, pod) then Install(Some(pod), s.pods[pod].conversation, Ordinary, Waiting, [])
    else Install(None, 0, Ordinary, Ended(true), [])
  }

  /** All reads made, and a pod to write. */
  predicate IsWriting(s: System, i: nat) {
    && i < |s.installs| && s.installs[i].phase.Holding? && |s.installs[i].seen| == READS
    && s.installs[i].pod.Some? && IsLive(s, s.installs[i].pod.value)
    && Known(s.installs[i].seen, |s.history|)
  }

  function FilesOf(s: System, i: nat): Files
    requires IsWriting(s, i)
  {
    FilesFor(s.history, s.installs[i].kind, s.installs[i].conversation, s.installs[i].seen)
  }

  /** Each file as it was, as the install writes it, or gone: what an install that fails may leave. */
  predicate IsMix(after: Files, before: Files, files: Files) {
    forall p | p in after :: (p in before && after[p] == before[p]) || (p in files && after[p] == files[p])
  }

  function WithPhase(s: System, i: nat, phase: Phase): System
    requires i < |s.installs|
  {
    s.(installs := s.installs[i := s.installs[i].(phase := phase)])
  }

  function Written(s: System, i: nat, files: Files, complete: bool): System
    requires IsWriting(s, i)
  {
    var pod := s.installs[i].pod.value;
    s.(pods := s.pods[pod := s.pods[pod].(files := files)],
       log := s.log + [Write(i, pod, s.installs[i].seen, FilesOf(s, i), complete)])
  }

  /** Pods listed once each. */
  predicate Distinct(pods: seq<nat>) {
    forall j, k | 0 <= j < k < |pods| :: pods[j] != pods[k]
  }

  function Without(pods: seq<nat>, pod: nat): seq<nat> {
    if pods == [] then [] else (if pods[0] == pod then [] else [pods[0]]) + Without(pods[1..], pod)
  }

  predicate CanFinish(s: System, round: nat, k: nat) {
    && round < |s.rounds| && k < |s.rounds[round].started| <= |s.rounds[round].pods|
    && s.rounds[round].started[k] < |s.installs| && s.installs[s.rounds[round].started[k]].phase.Ended?
    && s.rounds[round].pods[k] in s.rounds[round].inFlight
  }

  /** How many of a round's installs are under way. */
  function UnderWay(r: Round): int {
    |r.started| - (|r.pods| - |r.inFlight|)
  }

  function Do(s: System, step: Step): System {
    match step
    case Change(store) => s.(history := s.history + [store])
    case AddPod(pod, conversation) =>
      if pod in s.pods then s else s.(pods := s.pods[pod := Pod(conversation, true, map[])])
    case EndPod(pod) => if pod in s.pods then s.(pods := s.pods[pod := s.pods[pod].(live := false)]) else s
    case BeginInstall(pod) => s.(installs := s.installs + [NewInstall(s, pod)])
    case BeginReconcile(conversation, snapshot) =>
      s.(installs := s.installs + [Install(None, conversation, Reconcile(snapshot), Waiting, [])])
    case Acquire(i, newest) =>
      if i < |s.installs| && s.installs[i].phase.Waiting? && LockFree(s, s.installs[i].conversation) then
        if s.installs[i].kind.Ordinary? then WithPhase(s, i, Holding)
        else if IsNewest(s, s.installs[i].conversation, newest) then
          s.(installs := s.installs[i := s.installs[i].(phase := Holding, pod := Some(newest))])
        else if HasPod(s, s.installs[i].conversation) then s
        else s.(installs := s.installs[i := s.installs[i].(phase := Ended(true), pod := None)])
      else s
    case Read(i) =>
      if i < |s.installs| && s.installs[i].phase.Holding? && |s.installs[i].seen| < READS && s.history != [] then
        s.(installs := s.installs[i := s.installs[i].(seen := s.installs[i].seen + [|s.history| - 1])])
      else s
    case WritePart(i, files) =>
      if IsWriting(s, i) && IsMix(files, s.pods[s.installs[i].pod.value].files, FilesOf(s, i)) then
        Written(s, i, files, false)
      else s
    case WriteAll(i) => if IsWriting(s, i) then WithPhase(Written(s, i, FilesOf(s, i), true), i, Ended(true)) else s
    case Fail(i) => if i < |s.installs| && s.installs[i].phase.Holding? then WithPhase(s, i, Ended(false)) else s
    case ListPods(pods) =>
      if Distinct(pods) && (forall p | p in pods :: IsLive(s, p))
          && (forall p | p in s.pods && s.pods[p].live :: p in pods) && s.history != [] then
        s.(rounds := s.rounds + [Round(pods, |s.history| - 1, [], pods, [], None)])
      else s
    case StartNext(round) =>
      if round < |s.rounds| && |s.rounds[round].started| < |s.rounds[round].pods|
          && UnderWay(s.rounds[round]) < INSTALLS_AT_ONCE then
        var r := s.rounds[round];
        s.(installs := s.installs + [NewInstall(s, r.pods[|r.started|])],
           rounds := s.rounds[round := r.(started := r.started + [|s.installs|])])
      else s
    case FinishOne(round, k) =>
      if CanFinish(s, round, k) then
        var r := s.rounds[round];
        var failed := if s.installs[r.started[k]].phase.ok then r.failed else r.failed + [r.pods[k]];
        s.(rounds := s.rounds[round := r.(inFlight := Without(r.inFlight, r.pods[k]), failed := failed)])
      else s
    case Answer(round) =>
      if round < |s.rounds| && s.rounds[round].answer.None? then
        var r := s.rounds[round];
        s.(rounds := s.rounds[round := r.(answer := Some(r.inFlight + r.failed))])
      else s
  }

  function After(start: System, steps: seq<Step>, n: nat): System
    requires n <= |steps|
  {
    if n == 0 then start else Do(After(start, steps, n - 1), steps[n - 1])
  }

  /** A system that has done nothing yet, over a store and any pods without files. */
  predicate IsStart(s: System) {
    && |s.history| == 1 && s.installs == [] && s.rounds == [] && s.log == []
    && forall p | p in s.pods :: s.pods[p].files == map[]
  }

  // ----- Installs of one conversation take turns -----

  predicate Below(a: seq<nat>, b: seq<nat>) {
    forall x, y | 0 <= x < |a| && 0 <= y < |b| :: a[x] <= b[y]
  }

  /** Reads are of versions that exist; the log's writes are of installs, with all their reads. */
  predicate ReadsExist(s: System) {
    && s.history != []
    && (forall i | 0 <= i < |s.installs| :: Known(s.installs[i].seen, |s.history|))
    && (forall i | 0 <= i < |s.installs| && s.installs[i].phase.Waiting? :: s.installs[i].seen == [])
    && (forall w | w in s.log ::
          && w.install < |s.installs| && !s.installs[w.install].phase.Waiting?
          && w.seen == s.installs[w.install].seen && |w.seen| == READS
          && s.installs[w.install].pod == Some(w.pod)
          && Known(w.seen, |s.history|)
          && w.files == FilesFor(s.history, s.installs[w.install].kind, s.installs[w.install].conversation, w.seen))
  }

  /** An install's pod is of its conversation. */
  predicate PodsMatch(s: System) {
    forall i | 0 <= i < |s.installs| && s.installs[i].pod.Some? ::
      s.installs[i].pod.value in s.pods && s.pods[s.installs[i].pod.value].conversation == s.installs[i].conversation
  }

  /** No two installs of a conversation hold its lock. */
  predicate OneHolds(s: System) {
    forall i, j | 0 <= i < j < |s.installs| && s.installs[i].phase.Holding? && s.installs[j].phase.Holding? ::
      s.installs[i].conversation != s.installs[j].conversation
  }

  function ConversationOf(s: System, w: Write): nat {
    if w.install < |s.installs| then s.installs[w.install].conversation else 0
  }

  /** What was written before an install of the same conversation took its lock was read before anything it reads. */
  predicate HoldersReadLater(s: System) {
    forall i, w | 0 <= i < |s.installs| && s.installs[i].phase.Holding? && w in s.log && w.install != i
                  && ConversationOf(s, w) == s.installs[i].conversation ::
      Below(w.seen, s.installs[i].seen)
  }

  /** Of two writes for a conversation, the later is by the same install or of later reads. */
  predicate WritesInOrder(s: System) {
    forall j, k | 0 <= j < k < |s.log| && ConversationOf(s, s.log[j]) == ConversationOf(s, s.log[k]) ::
      s.log[j].install == s.log[k].install || Below(s.log[j].seen, s.log[k].seen)
  }

  /** Write `b` put this text at this path in the pod. */
  predicate CameFrom(log: seq<Write>, b: nat, pod: nat, path: Path, text: string) {
    b < |log| && log[b].pod == pod && path in log[b].files && log[b].files[path] == text
  }

  /** A write no earlier than `a` put this text at this path in the pod. */
  predicate Sourced(log: seq<Write>, a: nat, pod: nat, path: Path, text: string) {
    exists b: nat | a <= b < |log| :: CameFrom(log, b, pod, path, text)
  }

  /** What a pod holds, path and text, came from a write no earlier than its last complete one. */
  predicate Provenance(s: System) {
    && (forall w | w in s.log :: w.pod in s.pods)
    && (forall a: nat, path | a < |s.log| && s.log[a].complete && path in s.pods[s.log[a].pod].files ::
          Sourced(s.log, a, s.log[a].pod, path, s.pods[s.log[a].pod].files[path]))
  }

  predicate Inv(s: System) {
    ReadsExist(s) && PodsMatch(s) && OneHolds(s) && HoldersReadLater(s) && WritesInOrder(s) && Provenance(s)
  }

  // ----- What a step does to a system -----

  /** The store or the pods moved on, or installs were begun. */
  predicate Extends(s: System, t: System) {
    && s.history <= t.history && s.installs <= t.installs && t.log == s.log
    && (forall p | p in s.pods ::
          p in t.pods && t.pods[p].conversation == s.pods[p].conversation && t.pods[p].files == s.pods[p].files)
    && (forall j | |s.installs| <= j < |t.installs| ::
          && !t.installs[j].phase.Holding? && t.installs[j].seen == []
          && (t.installs[j].pod.Some? ==>
                t.installs[j].pod.value in t.pods
                    && t.pods[t.installs[j].pod.value].conversation == t.installs[j].conversation))
  }

  /** One install took its lock, read, or ended. */
  predicate Moves(s: System, t: System, i: nat) {
    && i < |s.installs| == |t.installs| && t == s.(installs := s.installs[i := t.installs[i]])
    && t.installs[i].conversation == s.installs[i].conversation && t.installs[i].kind == s.installs[i].kind
    && ((&& s.installs[i].phase.Waiting? && t.installs[i].phase.Holding? && t.installs[i].seen == s.installs[i].seen
         && LockFree(s, s.installs[i].conversation)
         && (t.installs[i].pod == s.installs[i].pod
             || (t.installs[i].pod.Some? && t.installs[i].pod.value in s.pods
                 && s.pods[t.installs[i].pod.value].conversation == s.installs[i].conversation)))
        || (!s.installs[i].phase.Ended? && t.installs[i].phase.Ended? && t.installs[i].seen == s.installs[i].seen
            && (t.installs[i].pod == s.installs[i].pod || (s.installs[i].phase.Waiting? && t.installs[i].pod.None?)))
        || (s.installs[i].phase.Holding? && t.installs[i].phase.Holding? && t.installs[i].pod == s.installs[i].pod
            && |s.installs[i].seen| < READS && t.installs[i].seen == s.installs[i].seen + [|s.history| - 1]))
  }

  /** One install wrote, all of its files or a mix of them with what was there. */
  predicate Wrote(s: System, t: System, i: nat, complete: bool) {
    && IsWriting(s, i) && |t.installs| == |s.installs| && t.history == s.history
    && t.installs == s.installs[i := s.installs[i].(phase := t.installs[i].phase)] && !t.installs[i].phase.Waiting?
    && (var pod := s.installs[i].pod.value;
        && pod in t.pods && t.pods == s.pods[pod := s.pods[pod].(files := t.pods[pod].files)]
        && t.log == s.log + [Write(i, pod, s.installs[i].seen, FilesOf(s, i), complete)]
        && (if complete then t.pods[pod].files == FilesOf(s, i)
            else IsMix(t.pods[pod].files, s.pods[pod].files, FilesOf(s, i))))
  }

  lemma NewInstallIs(s: System, pod: nat)
    ensures var x := NewInstall(s, pod);
            && !x.phase.Holding? && x.seen == []
            && (x.pod.Some? ==> x.pod.value in s.pods && s.pods[x.pod.value].conversation == x.conversation)
  {
  }

  lemma StepIs(s: System, step: Step) returns (i: nat)
    ensures Extends(s, Do(s, step)) || Moves(s, Do(s, step), i) || Wrote(s, Do(s, step), i, true)
            || Wrote(s, Do(s, step), i, false)
  {
    hide Do;
    hide Extends;
    hide Moves;
    hide Wrote;
    i := 0;
    match step
    case Acquire(install, _) => i := install; AcquireMoves(s, install, step.newest);
    case Read(install) => i := install; ReadMoves(s, install);
    case WritePart(install, files) => i := install; PartWrote(s, install, files);
    case WriteAll(install) => i := install; AllWrote(s, install);
    case Fail(install) => i := install; FailMoves(s, install);
    case ListPods(_) => RoundStepExtends(s, step);
    case StartNext(round) => RoundStepExtends(s, step);
    case FinishOne(_, _) => RoundStepExtends(s, step);
    case Answer(_) => RoundStepExtends(s, step);
    case _ => OtherStepExtends(s, step);
  }

  lemma RoundStepExtends(s: System, step: Step)
    requires step.ListPods? || step.StartNext? || step.FinishOne? || step.Answer?
    ensures Extends(s, Do(s, step))
  {
    hide CanFinish;
    hide Distinct;
    if step.StartNext? && step.round < |s.rounds| && |s.rounds[step.round].started| < |s.rounds[step.round].pods| {
      NewInstallIs(s, s.rounds[step.round].pods[|s.rounds[step.round].started|]);
    }
  }

  lemma OtherStepExtends(s: System, step: Step)
    requires step.Change? || step.AddPod? || step.EndPod? || step.BeginInstall? || step.BeginReconcile?
    ensures Extends(s, Do(s, step))
  {
    if step.BeginInstall? {
      NewInstallIs(s, step.pod);
    }
  }

  lemma StaysAsIs(s: System)
    ensures Extends(s, s)
  {
  }

  lemma AcquireMoves(s: System, i: nat, newest: nat)
    ensures Extends(s, Do(s, Acquire(i, newest))) || Moves(s, Do(s, Acquire(i, newest)), i)
  {
    StaysAsIs(s);
  }

  lemma ReadMoves(s: System, i: nat)
    ensures Extends(s, Do(s, Read(i))) || Moves(s, Do(s, Read(i)), i)
  {
    StaysAsIs(s);
  }

  lemma FailMoves(s: System, i: nat)
    ensures Extends(s, Do(s, Fail(i))) || Moves(s, Do(s, Fail(i)), i)
  {
    StaysAsIs(s);
  }

  lemma PartWrote(s: System, i: nat, files: Files)
    ensures Extends(s, Do(s, WritePart(i, files))) || Wrote(s, Do(s, WritePart(i, files)), i, false)
  {
    hide FilesFor;
    hide IsMix;
    StaysAsIs(s);
  }

  lemma AllWrote(s: System, i: nat)
    ensures Extends(s, Do(s, WriteAll(i))) || Wrote(s, Do(s, WriteAll(i)), i, true)
  {
    hide FilesFor;
    StaysAsIs(s);
  }

  // ----- What every step keeps -----

  lemma FilesForStays(history: seq<Store>, later: seq<Store>, kind: Kind, conversation: nat, seen: seq<nat>)
    requires |seen| == READS && Known(seen, |history|) && history <= later
    ensures FilesFor(later, kind, conversation, seen) == FilesFor(history, kind, conversation, seen)
  {
    hide GitFiles;
    hide SecretFiles;
    hide GitSshGranted;
    hide PersonaNames;
    assert forall k | 0 <= k < |history| :: later[k] == history[k];
  }

  lemma ExtendsKeepsReads(s: System, t: System)
    requires ReadsExist(s) && Extends(s, t)
    ensures ReadsExist(t)
  {
    hide FilesFor;
    assert forall i | 0 <= i < |s.installs| :: t.installs[i] == s.installs[i];
    forall w | w in s.log
      ensures w.files == FilesFor(t.history, t.installs[w.install].kind, t.installs[w.install].conversation, w.seen)
    {
      FilesForStays(s.history, t.history, s.installs[w.install].kind, s.installs[w.install].conversation, w.seen);
    }
  }

  lemma ExtendsKeepsPods(s: System, t: System)
    requires PodsMatch(s) && Extends(s, t)
    ensures PodsMatch(t)
  {
    assert forall i | 0 <= i < |s.installs| :: t.installs[i] == s.installs[i];
  }

  lemma ExtendsKeepsOrder(s: System, t: System)
    requires ReadsExist(s) && OneHolds(s) && HoldersReadLater(s) && WritesInOrder(s) && Extends(s, t)
    ensures OneHolds(t) && HoldersReadLater(t) && WritesInOrder(t)
  {
    hide FilesFor;
    hide Below;
    assert forall i | 0 <= i < |s.installs| :: t.installs[i] == s.installs[i];
    assert forall i | 0 <= i < |t.installs| && t.installs[i].phase.Holding? :: i < |s.installs|;
    assert forall w | w in s.log :: ConversationOf(t, w) == ConversationOf(s, w);
  }

  lemma ExtendsKeepsProvenance(s: System, t: System)
    requires Provenance(s) && Extends(s, t)
    ensures Provenance(t)
  {
    hide Sourced;
    forall a: nat, path | a < |t.log| && t.log[a].complete && path in t.pods[t.log[a].pod].files
      ensures Sourced(t.log, a, t.log[a].pod, path, t.pods[t.log[a].pod].files[path])
    {
      assert s.log[a] in s.log && path in s.pods[s.log[a].pod].files;
    }
  }

  lemma MovesKeepsReads(s: System, t: System, i: nat)
    requires ReadsExist(s) && Moves(s, t, i)
    ensures ReadsExist(t)
  {
    hide FilesFor;
    assert forall j | 0 <= j < |s.installs| && j != i :: t.installs[j] == s.installs[j];
  }

  lemma MovesKeepsPods(s: System, t: System, i: nat)
    requires PodsMatch(s) && Moves(s, t, i)
    ensures PodsMatch(t)
  {
    assert forall j | 0 <= j < |s.installs| && j != i :: t.installs[j] == s.installs[j];
  }

  lemma MovesKeepsOneHolds(s: System, t: System, i: nat)
    requires OneHolds(s) && Moves(s, t, i)
    ensures OneHolds(t)
  {
    assert forall j | 0 <= j < |s.installs| && j != i :: t.installs[j] == s.installs[j];
  }

  lemma ReadIsLater(a: seq<nat>, b: seq<nat>, versions: nat)
    requires Known(a, versions) && versions > 0 && Below(a, b)
    ensures Below(a, b + [versions - 1])
  {
  }

  lemma MovesKeepsHolders(s: System, t: System, i: nat)
    requires ReadsExist(s) && HoldersReadLater(s) && Moves(s, t, i)
    ensures HoldersReadLater(t)
  {
    hide FilesFor;
    assert forall j | 0 <= j < |s.installs| && j != i :: t.installs[j] == s.installs[j];
    forall j, w | 0 <= j < |t.installs| && t.installs[j].phase.Holding? && w in t.log && w.install != j
                  && ConversationOf(t, w) == t.installs[j].conversation
      ensures Below(w.seen, t.installs[j].seen)
    {
      assert ConversationOf(s, w) == ConversationOf(t, w);
      if j == i && s.installs[i].phase.Holding? {
        ReadIsLater(w.seen, s.installs[i].seen, |s.history|);
      }
    }
  }

  lemma MovesKeepsOrder(s: System, t: System, i: nat)
    requires WritesInOrder(s) && Moves(s, t, i)
    ensures WritesInOrder(t)
  {
    hide Below;
    assert forall w | w in s.log :: ConversationOf(t, w) == ConversationOf(s, w);
  }

  lemma WroteKeepsReads(s: System, t: System, i: nat, complete: bool)
    requires ReadsExist(s) && Wrote(s, t, i, complete)
    ensures ReadsExist(t)
  {
    hide FilesFor;
    hide IsMix;
    assert forall j | 0 <= j < |s.installs| && j != i :: t.installs[j] == s.installs[j];
  }

  lemma WroteKeepsPods(s: System, t: System, i: nat, complete: bool)
    requires PodsMatch(s) && OneHolds(s) && Wrote(s, t, i, complete)
    ensures PodsMatch(t) && OneHolds(t)
  {
    hide FilesFor;
    hide IsMix;
    assert forall j | 0 <= j < |s.installs| && j != i :: t.installs[j] == s.installs[j];
  }

  lemma WroteKeepsHolders(s: System, t: System, i: nat, complete: bool)
    requires ReadsExist(s) && OneHolds(s) && HoldersReadLater(s) && Wrote(s, t, i, complete)
    ensures HoldersReadLater(t)
  {
    hide FilesFor;
    hide IsMix;
    hide Below;
    assert forall j | 0 <= j < |s.installs| && j != i :: t.installs[j] == s.installs[j];
    forall j, w | 0 <= j < |t.installs| && t.installs[j].phase.Holding? && w in t.log && w.install != j
                  && ConversationOf(t, w) == t.installs[j].conversation
      ensures Below(w.seen, t.installs[j].seen)
    {
      assert w in s.log || w.install == i;
      assert ConversationOf(s, w) == ConversationOf(t, w);
    }
  }

  lemma WroteKeepsOrder(s: System, t: System, i: nat, complete: bool)
    requires ReadsExist(s) && HoldersReadLater(s) && WritesInOrder(s) && Wrote(s, t, i, complete)
    ensures WritesInOrder(t)
  {
    hide FilesFor;
    hide IsMix;
    hide Below;
    forall j, k | 0 <= j < k < |t.log| && ConversationOf(t, t.log[j]) == ConversationOf(t, t.log[k])
      ensures t.log[j].install == t.log[k].install || Below(t.log[j].seen, t.log[k].seen)
    {
      assert t.log[j] == s.log[j] && s.log[j] in s.log;
      assert ConversationOf(s, t.log[j]) == ConversationOf(t, t.log[j])
          && ConversationOf(s, t.log[k]) == ConversationOf(t, t.log[k]);
      if k < |s.log| {
        assert t.log[k] == s.log[k];
      }
    }
  }

  lemma WroteKeepsProvenance(s: System, t: System, i: nat, complete: bool)
    requires Provenance(s) && Wrote(s, t, i, complete)
    ensures Provenance(t)
  {
    hide FilesFor;
    hide Sourced;
    hide Known;
    var pod, files, n := s.installs[i].pod.value, FilesOf(s, i), |s.log|;
    WrittenIsMix(s, t, i, complete);
    forall w | w in t.log ensures w.pod in t.pods {
      assert w in s.log || w == t.log[n];
    }
    forall a: nat, path | a < |t.log| && t.log[a].complete && path in t.pods[t.log[a].pod].files
      ensures Sourced(t.log, a, t.log[a].pod, path, t.pods[t.log[a].pod].files[path])
    {
      var text := t.pods[t.log[a].pod].files[path];
      if t.log[a].pod == pod && path in files && text == files[path] {
        WriteSources(s.log, t.log[n], a, path);
      } else {
        assert a < n;
        assert t.log[a] == s.log[a] && s.log[a] in s.log;
        SourcedStays(s.log, t.log, a, t.log[a].pod, path, text);
      }
    }
  }

  /** A write leaves each file as it was or as the install writes it, and after a complete one none as it was. */
  lemma WrittenIsMix(s: System, t: System, i: nat, complete: bool)
    requires Wrote(s, t, i, complete)
    ensures var pod := s.installs[i].pod.value;
            && pod in s.pods && pod in t.pods && t.log == s.log + [t.log[|s.log|]] && t.log[|s.log|].pod == pod
            && t.log[|s.log|].files == FilesOf(s, i) && t.log[|s.log|].complete == complete
            && IsMix(t.pods[pod].files, s.pods[pod].files, FilesOf(s, i))
            && (complete ==> t.pods[pod].files == FilesOf(s, i))
            && t.pods.Keys == s.pods.Keys && forall p | p in s.pods && p != pod :: t.pods[p].files == s.pods[p].files
  {
    hide FilesFor;
    hide Known;
  }

  lemma WriteSources(log: seq<Write>, w: Write, a: nat, path: Path)
    requires a <= |log| && path in w.files
    ensures Sourced(log + [w], a, w.pod, path, w.files[path])
  {
    assert CameFrom(log + [w], |log|, w.pod, path, w.files[path]);
  }

  lemma SourcedStays(log: seq<Write>, longer: seq<Write>, a: nat, pod: nat, path: Path, text: string)
    requires Sourced(log, a, pod, path, text) && log <= longer
    ensures Sourced(longer, a, pod, path, text)
  {
    var b: nat :| a <= b < |log| && CameFrom(log, b, pod, path, text);
    assert CameFrom(longer, b, pod, path, text);
  }

  lemma MovesKeepsProvenance(s: System, t: System, i: nat)
    requires Provenance(s) && Moves(s, t, i)
    ensures Provenance(t)
  {
    hide Sourced;
  }

  lemma StepKeepsInv(s: System, step: Step)
    requires Inv(s)
    ensures Inv(Do(s, step))
  {
    hide Do;
    hide Extends;
    hide Moves;
    hide Wrote;
    hide ReadsExist;
    hide PodsMatch;
    hide OneHolds;
    hide HoldersReadLater;
    hide WritesInOrder;
    hide Provenance;
    var t := Do(s, step);
    var i := StepIs(s, step);
    if Extends(s, t) {
      ExtendsKeepsReads(s, t);
      ExtendsKeepsPods(s, t);
      ExtendsKeepsOrder(s, t);
      ExtendsKeepsProvenance(s, t);
    } else if Moves(s, t, i) {
      MovesKeepsReads(s, t, i);
      MovesKeepsPods(s, t, i);
      MovesKeepsOneHolds(s, t, i);
      MovesKeepsHolders(s, t, i);
      MovesKeepsOrder(s, t, i);
      MovesKeepsProvenance(s, t, i);
    } else {
      var complete := Wrote(s, t, i, true);
      WroteKeepsReads(s, t, i, complete);
      WroteKeepsPods(s, t, i, complete);
      WroteKeepsHolders(s, t, i, complete);
      WroteKeepsOrder(s, t, i, complete);
      WroteKeepsProvenance(s, t, i, complete);
    }
  }

  lemma {:induction false} EveryRunKeepsInv(start: System, steps: seq<Step>, n: nat)
    requires n <= |steps| && IsStart(start)
    ensures Inv(After(start, steps, n))
  {
    hide Do;
    hide Inv;
    if n == 0 {
      StartHasInv(start);
    } else {
      EveryRunKeepsInv(start, steps, n - 1);
      StepKeepsInv(After(start, steps, n - 1), steps[n - 1]);
    }
  }

  lemma StartHasInv(start: System)
    requires IsStart(start)
    ensures Inv(start)
  {
  }

  // ----- Writes to a pod never go back to an older store -----

  /**
   In every run, of two writes to one pod the later reflects no older state of the store: each of its reads,
   the keys', the identity's and the secrets' included, was of the same version or a newer one.
   */
  lemma WritesNeverGoBack(start: System, steps: seq<Step>, n: nat, j: nat, k: nat)
    requires n <= |steps| && IsStart(start)
    requires j < k < |After(start, steps, n).log|
             && After(start, steps, n).log[j].pod == After(start, steps, n).log[k].pod
    ensures var log := After(start, steps, n).log;
            && |log[j].seen| == |log[k].seen| == READS
            && forall x | 0 <= x < READS :: log[j].seen[x] <= log[k].seen[x]
  {
    hide Do;
    hide Inv;
    EveryRunKeepsInv(start, steps, n);
    WritesAreInOrder(After(start, steps, n), j, k);
  }

  lemma WritesAreInOrder(s: System, j: nat, k: nat)
    requires Inv(s) && j < k < |s.log| && s.log[j].pod == s.log[k].pod
    ensures |s.log[j].seen| == |s.log[k].seen| == READS
    ensures forall x | 0 <= x < READS :: s.log[j].seen[x] <= s.log[k].seen[x]
  {
    hide FilesFor;
    hide OneHolds;
    hide HoldersReadLater;
    hide Provenance;
    assert s.log[j] in s.log && s.log[k] in s.log;
  }

  /** What a write left is what the store held when the write's install read it: a run only adds versions. */
  lemma WritesReflectTheirReads(start: System, steps: seq<Step>, n: nat, j: nat)
    requires n <= |steps| && IsStart(start) && j < |After(start, steps, n).log|
    ensures var s := After(start, steps, n);
            var w := s.log[j];
            && |w.seen| == READS && Known(w.seen, |s.history|) && w.install < |s.installs|
            && w.files == FilesFor(s.history, s.installs[w.install].kind, s.installs[w.install].conversation, w.seen)
  {
    hide Do;
    hide Inv;
    hide FilesFor;
    EveryRunKeepsInv(start, steps, n);
    WriteIs(After(start, steps, n), j);
  }

  // ----- What the last write leaves -----

  predicate IsLastWrite(log: seq<Write>, a: nat) {
    a < |log| && forall b | a < b < |log| :: log[b].pod != log[a].pod
  }

  /** A pod whose last write was complete holds exactly what it wrote. */
  predicate HoldsLast(s: System) {
    forall a: nat | a < |s.log| && IsLastWrite(s.log, a) && s.log[a].complete ::
      s.log[a].pod in s.pods && s.pods[s.log[a].pod].files == s.log[a].files
  }

  lemma StepHoldsLast(s: System, step: Step)
    requires HoldsLast(s)
    ensures HoldsLast(Do(s, step))
  {
    hide Do;
    hide HoldsLast;
    hide Extends;
    hide Moves;
    hide Wrote;
    var i := StepIs(s, step);
    var t := Do(s, step);
    if Extends(s, t) {
      ExtendsHoldsLast(s, t);
    } else if Moves(s, t, i) {
      MovesHoldsLast(s, t, i);
    } else {
      WroteHoldsLast(s, t, i, Wrote(s, t, i, true));
    }
  }

  lemma ExtendsHoldsLast(s: System, t: System)
    requires HoldsLast(s) && Extends(s, t)
    ensures HoldsLast(t)
  {
    hide IsLastWrite;
  }

  lemma MovesHoldsLast(s: System, t: System, i: nat)
    requires HoldsLast(s) && Moves(s, t, i)
    ensures HoldsLast(t)
  {
    hide IsLastWrite;
  }

  lemma WroteHoldsLast(s: System, t: System, i: nat, complete: bool)
    requires HoldsLast(s) && Wrote(s, t, i, complete)
    ensures HoldsLast(t)
  {
    hide FilesFor;
    hide IsMix;
    hide Known;
    WrittenIsMix(s, t, i, complete);
    var n := |s.log|;
    forall a: nat | a < |t.log| && IsLastWrite(t.log, a) && t.log[a].complete
      ensures t.log[a].pod in t.pods && t.pods[t.log[a].pod].files == t.log[a].files
    {
      if a < n {
        assert t.log[a] == s.log[a] && t.log[n].pod != t.log[a].pod;
        assert forall b | a < b < n :: t.log[b] == s.log[b];
        assert IsLastWrite(s.log, a);
      }
    }
  }

  /** In every run a pod whose last write was complete holds exactly that write: earlier files are pruned. */
  lemma {:induction false} EveryRunHoldsLast(start: System, steps: seq<Step>, n: nat)
    requires n <= |steps| && IsStart(start)
    ensures HoldsLast(After(start, steps, n))
  {
    hide Do;
    if n > 0 {
      hide HoldsLast;
      EveryRunHoldsLast(start, steps, n - 1);
      StepHoldsLast(After(start, steps, n - 1), steps[n - 1]);
    }
  }

  // ----- Which conversation gets what -----

  /** A conversation's `git-ssh`: the user's own has it with any key stored, an agent's column says, and NULL is yes. */
  predicate MayUseKeys(row: Option<Option<set<string>>>, keysStored: bool) {
    match row
    case None => keysStored
    case Some(column) => column == None || exists name | name in column.value :: name == "git-ssh"
  }

  function AgentRow(store: Store, conversation: nat): Option<Option<set<string>>> {
    if conversation in store.agents then Some(store.agents[conversation]) else None
  }

  /** The conversation's own names list this one: a starting child's snapshot, or else its persona. */
  predicate Lists(kind: Kind, store: Store, conversation: nat, name: string) {
    match kind
    case Reconcile(Some(names)) => name in names
    case _ => conversation in store.personas && name in store.personas[conversation]
  }

  /** A key's text as its file holds it: ending its last line. */
  predicate IsKeyText(text: string, key: string) {
    (text == key && text != "" && text[|text| - 1] == '\n')
    || (text == key + ['\n'] && (key == "" || key[|key| - 1] != '\n'))
  }

  /** The text of the last key of this name. */
  predicate IsTextOf(text: string, keys: seq<(string, string)>, name: string) {
    exists i | 0 <= i < |keys| ::
      keys[i].0 == name && IsKeyText(text, keys[i].1) && forall j | i < j < |keys| :: keys[j].0 != name
  }

  /** The configuration names a file for each key, in order, under its two lines for every host. */
  function NamedKeys(keys: seq<(string, string)>): string {
    if keys == [] then "" else "    IdentityFile /etc/smelt/keys/" + keys[0].0 + "\n" + NamedKeys(keys[1..])
  }

  lemma NamedKeysSnoc(keys: seq<(string, string)>, key: (string, string))
    ensures NamedKeys(keys + [key]) == NamedKeys(keys) + ("    IdentityFile /etc/smelt/keys/" + key.0 + "\n")
  {
    var line := "    IdentityFile /etc/smelt/keys/" + key.0 + "\n";
    if keys == [] {
      assert keys + [key] == [key] && [key][1..] == [];
    } else {
      var first := "    IdentityFile /etc/smelt/keys/" + keys[0].0 + "\n";
      assert (keys + [key])[1..] == keys[1..] + [key];
      NamedKeysSnoc(keys[1..], key);
      Assoc(first, NamedKeys(keys[1..]), line);
    }
  }

  const EVERY_HOST: string := "Host *\n    StrictHostKeyChecking accept-new\n"

  lemma {:induction false} ConfigNamesKeys(keys: seq<(string, string)>)
    ensures SshConfigText(keys) == EVERY_HOST + NamedKeys(keys)
  {
    hide NamedKeys;
    if keys == [] {
      NoNamedKeys();
    } else {
      var front, last := keys[..|keys| - 1], keys[|keys| - 1];
      ConfigNamesKeys(front);
      NamedKeysSnoc(front, last);
      LastBack(keys);
      ConfigLine(EVERY_HOST, NamedKeys(front), "    IdentityFile /etc/smelt/keys/", last.0, "\n");
    }
  }

  lemma NoNamedKeys()
    ensures EVERY_HOST + NamedKeys([]) == EVERY_HOST
  {
  }

  lemma ConfigLine(a: string, b: string, c: string, d: string, e: string)
    ensures (a + b) + c + d + e == a + (b + (c + d + e))
  {
  }

  lemma TextOfLast(before: seq<(string, string)>, last: (string, string))
    ensures IsTextOf(WithNewline(last.1), before + [last], last.0) && HoldsKey(before + [last], last.0)
  {
    hide WithNewline;
    hide IsKeyText;
    KeyTextIs(last.1);
    assert (before + [last])[|before|] == last;
  }

  lemma TextOfEarlier(text: string, before: seq<(string, string)>, last: (string, string), name: string)
    requires name != last.0
    ensures IsTextOf(text, before, name) ==> IsTextOf(text, before + [last], name)
    ensures HoldsKey(before, name) <==> HoldsKey(before + [last], name)
  {
    hide IsKeyText;
    var keys := before + [last];
    assert forall i | 0 <= i < |before| :: keys[i] == before[i];
    if HoldsKey(before, name) {
      var i :| 0 <= i < |before| && before[i].0 == name;
      assert keys[i].0 == name;
    }
    if IsTextOf(text, before, name) {
      var i :| 0 <= i < |before| && before[i].0 == name && IsKeyText(text, before[i].1)
        && forall j | i < j < |before| :: before[j].0 != name;
      assert keys[i].0 == name;
    }
  }

  lemma {:induction false} KeyFilesAreLast(keys: seq<(string, string)>, path: Path)
    ensures path in KeyFiles(keys) <==> path.KeyFile? && HoldsKey(keys, path.name)
    ensures path in KeyFiles(keys) ==> IsTextOf(KeyFiles(keys)[path], keys, path.name)
  {
    hide WithNewline;
    hide IsTextOf;
    if keys != [] {
      hide HoldsKey;
      var before, last := keys[..|keys| - 1], keys[|keys| - 1];
      KeyFilesAreLast(before, path);
      LastBack(keys);
      TextOfLast(before, last);
      if path.KeyFile? && path.name != last.0 {
        TextOfEarlier(if path in KeyFiles(before) then KeyFiles(before)[path] else "", before, last, path.name);
      }
    }
  }

  lemma KeyTextIs(key: string)
    ensures IsKeyText(WithNewline(key), key)
  {
  }

  /** What the store held at each of an install's reads. */
  datatype Answers = Answers(row: Store, keyStored: Store, names: Store, backed: Store,
                             keys: Store, identity: Store, secrets: Store)

  /**
   An ordinary install reads the agent's row, the stored keys, the names and their backing; a reconcile the names
   first.
   */
  function AnswersOf(history: seq<Store>, kind: Kind, seen: seq<nat>): Answers
    requires |seen| == 7 && Known(seen, |history|)
  {
    if kind.Ordinary? then
      Answers(history[seen[0]], history[seen[1]], history[seen[2]], history[seen[3]],
              history[seen[4]], history[seen[5]], history[seen[6]])
    else
      Answers(history[seen[2]], history[seen[3]], history[seen[0]], history[seen[1]],
              history[seen[4]], history[seen[5]], history[seen[6]])
  }

  /**
   Exactly what an install of this conversation writes, by what the store held at each of its reads: the
   configuration always, each key if and only if the conversation may use keys, and each secret if and only
   if the conversation's own names list it and it was stored at both reads.
   */
  predicate IsGranted(files: Files, kind: Kind, conversation: nat, a: Answers) {
    var keys := if MayUseKeys(AgentRow(a.row, conversation), a.keyStored.keys != []) then a.keys.keys else [];
    && (forall path | path in files :: IsRightFile(path, files[path], kind, conversation, keys, a))
    && (forall i | 0 <= i < |keys| :: KeyFile(keys[i].0) in files)
    && (forall name | name in a.secrets.secrets && name in a.backed.secrets
        && Lists(kind, a.names, conversation, name) ::
          SecretFile(name) in files)
    && SshConfig in files && GitConfig in files
  }

  predicate IsRightFile(path: Path, text: string, kind: Kind, conversation: nat, keys: seq<(string, string)>,
                        a: Answers) {
    match path
    case KeyFile(name) => IsTextOf(text, keys, name)
    case SshConfig => text == EVERY_HOST + NamedKeys(keys)
    case GitConfig => text == GitConfigText(a.identity.identity)
    case SecretFile(name) =>
      && Lists(kind, a.names, conversation, name) && name in a.backed.secrets
      && name in a.secrets.secrets && text == a.secrets.secrets[name]
  }

  /** In every run each write is exactly what its conversation is granted by its reads. */
  lemma WritesAreGranted(start: System, steps: seq<Step>, n: nat, j: nat)
    requires n <= |steps| && IsStart(start) && j < |After(start, steps, n).log|
    ensures var s := After(start, steps, n);
            var w := s.log[j];
            && |w.seen| == 7 && Known(w.seen, |s.history|) && w.install < |s.installs|
            && var install := s.installs[w.install];
            IsGranted(w.files, install.kind, install.conversation, AnswersOf(s.history, install.kind, w.seen))
  {
    hide Do;
    hide FilesFor;
    hide IsGranted;
    hide AnswersOf;
    WritesReflectTheirReads(start, steps, n, j);
    var s := After(start, steps, n);
    var install := s.installs[s.log[j].install];
    FilesAreGranted(s.history, install.kind, install.conversation, s.log[j].seen);
  }

  lemma FilesAreGranted(history: seq<Store>, kind: Kind, conversation: nat, seen: seq<nat>)
    requires |seen| == READS && Known(seen, |history|)
    ensures IsGranted(FilesFor(history, kind, conversation, seen), kind, conversation, AnswersOf(history, kind, seen))
  {
    hide GitFiles;
    hide SecretFiles;
    hide GitSshGranted;
    hide PersonaNames;
    hide MayUseKeys;
    hide Lists;
    hide NamedKeys;
    hide IsTextOf;
    hide GitConfigText;
    var a, files := AnswersOf(history, kind, seen), FilesFor(history, kind, conversation, seen);
    GitSshIsMayUse(a.row, a.keyStored, conversation);
    var keys := if GitSshGranted(a.row, a.keyStored, conversation) then a.keys.keys else [];
    var names := PersonaNames(kind, a.names, conversation);
    var granted := set n | n in names && n in a.backed.secrets;
    var git, secret := GitFiles(keys, a.identity.identity), SecretFiles(a.secrets.secrets, granted);
    assert files == git + secret;
    GitFilesAreAll(keys, a.identity.identity);
    forall path | path in files ensures IsRightFile(path, files[path], kind, conversation, keys, a) {
      SecretsAre(a.secrets.secrets, granted, path);
      if path in secret {
        assert files[path] == secret[path];
        GrantedSecretsAre(a.secrets.secrets, granted, path);
        NamesAreListed(kind, a.names, conversation, path.name);
      } else {
        assert files[path] == git[path];
        GitFilesAre(keys, a.identity.identity, path);
        GitFilesRight(keys, a.identity.identity, path);
      }
    }
    forall name | name in a.secrets.secrets && name in a.backed.secrets && Lists(kind, a.names, conversation, name)
      ensures SecretFile(name) in files
    {
      NamesAreListed(kind, a.names, conversation, name);
      SecretsAreAll(a.secrets.secrets, granted, name);
    }
  }

  lemma GitSshIsMayUse(row: Store, stored: Store, conversation: nat)
    ensures GitSshGranted(row, stored, conversation) == MayUseKeys(AgentRow(row, conversation), stored.keys != [])
  {
  }

  lemma NamesAreListed(kind: Kind, store: Store, conversation: nat, name: string)
    ensures name in PersonaNames(kind, store, conversation) <==> Lists(kind, store, conversation, name)
  {
  }

  lemma GrantedSecretsAre(secrets: map<string, string>, granted: set<string>, path: Path)
    requires path in SecretFiles(secrets, granted)
    ensures path.SecretFile? && path.name in granted
  {
  }

  lemma SecretsAreAll(secrets: map<string, string>, granted: set<string>, name: string)
    requires name in secrets && name in granted
    ensures SecretFile(name) in SecretFiles(secrets, granted)
  {
  }

  lemma GitFilesAreAll(keys: seq<(string, string)>, identity: Identity)
    ensures SshConfig in GitFiles(keys, identity) && GitConfig in GitFiles(keys, identity)
    ensures forall i | 0 <= i < |keys| :: KeyFile(keys[i].0) in GitFiles(keys, identity)
  {
    hide KeyFiles;
    hide SshConfigText;
    hide GitConfigText;
    forall i | 0 <= i < |keys| ensures KeyFile(keys[i].0) in GitFiles(keys, identity) {
      KeyFilesAreLast(keys, KeyFile(keys[i].0));
    }
  }

  lemma GitFilesRight(keys: seq<(string, string)>, identity: Identity, path: Path)
    requires path in GitFiles(keys, identity)
    ensures match path
            case KeyFile(name) => IsTextOf(GitFiles(keys, identity)[path], keys, name)
            case SecretFile(_) => true
            case SshConfig => GitFiles(keys, identity)[path] == EVERY_HOST + NamedKeys(keys)
            case GitConfig => GitFiles(keys, identity)[path] == GitConfigText(identity)
  {
    hide KeyFiles;
    hide SshConfigText;
    hide GitConfigText;
    hide NamedKeys;
    hide IsTextOf;
    KeyFilesAreLast(keys, path);
    ConfigNamesKeys(keys);
  }

  // ----- What git reads back -----

  /** A value in double quotes as git's configuration syntax reads it, and the text after it. */
  function Unquoted(text: string): Option<(string, string)> {
    if text == "" || text[0] != '"' then None else UnquotedRest(text[1..])
  }

  function UnquotedRest(text: string): Option<(string, string)> {
    if text == "" then None
    else if text[0] == '"' then Some(("", text[1..]))
    else if text[0] != '\\' then Led(text[0], UnquotedRest(text[1..]))
    else if |text| > 1 && (text[1] == '\\' || text[1] == '"') then Led(text[1], UnquotedRest(text[2..]))
    else None
  }

  function Led(c: char, rest: Option<(string, string)>): Option<(string, string)> {
    match rest
    case None => None
    case Some((value, after)) => Some(([c] + value, after))
  }

  lemma CharReadsBack(c: char, rest: string)
    ensures UnquotedRest(EscapedChar(c) + rest) == Led(c, UnquotedRest(rest))
  {
    var text := EscapedChar(c) + rest;
    if c == '\\' || c == '"' {
      assert text[0] == '\\' && text[1] == c && text[2..] == rest;
    } else {
      assert text[0] == c && text[1..] == rest;
    }
  }

  lemma {:induction false} EscapedReadsBack(value: string, after: string)
    ensures UnquotedRest(Escaped(value) + (['"'] + after)) == Some((value, after))
  {
    hide EscapedChar;
    if value == "" {
      NothingFirst(['"'] + after);
      assert (['"'] + after)[1..] == after;
    } else {
      hide UnquotedRest;
      EscapedReadsBack(value[1..], after);
      CharReadsBack(value[0], Escaped(value[1..]) + (['"'] + after));
      Assoc(EscapedChar(value[0]), Escaped(value[1..]), ['"'] + after);
      assert [value[0]] + value[1..] == value;
    }
  }

  /** Whatever a value holds, quoted it is read back whole, and nothing of it is read as more configuration. */
  lemma QuotedReadsBack(value: string, after: string)
    ensures Unquoted(Quoted(value) + after) == Some((value, after))
  {
    hide UnquotedRest;
    hide Escaped;
    var text := Quoted(value) + after;
    EscapedReadsBack(value, after);
    Assoc("\"", Escaped(value), "\"");
    Assoc("\"", Escaped(value) + "\"", after);
    Assoc(Escaped(value), "\"", after);
    assert text[0] == '"' && text[1..] == Escaped(value) + (['"'] + after);
  }

  /** The name and email git reads from a configuration that holds them and no more. */
  function ReadIdentity(text: string): Option<Identity> {
    match StripPrefix(text, "[user]\n\tname = ")
    case None => None
    case Some(fromName) =>
      match Unquoted(fromName)
      case None => None
      case Some((name, afterName)) =>
        match StripPrefix(afterName, "\n\temail = ")
        case None => None
        case Some(fromEmail) =>
          match Unquoted(fromEmail)
          case None => None
          case Some((email, end)) => if end == "\n" then Some(Identity(name, email)) else None
  }

  /** git reads the name and the email the store holds, whatever is in them; with neither, the file is empty. */
  lemma GitConfigReadsBack(identity: Identity)
    ensures identity == Identity("", "") ==> GitConfigText(identity) == ""
    ensures identity != Identity("", "") ==> ReadIdentity(GitConfigText(identity)) == Some(identity)
  {
    hide Quoted;
    hide Unquoted;
    hide StripPrefix;
    if identity != Identity("", "") {
      var start, middle := "[user]\n\tname = ", "\n\temail = ";
      var name, email := Quoted(identity.name), Quoted(identity.email);
      Assoc(start + name, middle, email);
      Assoc(start + name, middle + email, "\n");
      Assoc(start, name, middle + email + "\n");
      Assoc(middle, email, "\n");
      StripPrefixOf(start, name + (middle + (email + "\n")));
      QuotedReadsBack(identity.name, middle + (email + "\n"));
      StripPrefixOf(middle, email + "\n");
      QuotedReadsBack(identity.email, "\n");
    }
  }

  // ----- Rounds -----

  /** An install that ended well wrote all its files, unless it had no pod. */
  predicate EndedWrote(s: System) {
    forall i | 0 <= i < |s.installs| && s.installs[i].phase == Ended(true) && s.installs[i].pod.Some? ::
      exists w :: w in s.log && w.install == i && w.complete
  }

  predicate ReadsFrom(seen: seq<nat>, since: nat) {
    forall x | 0 <= x < |seen| :: since <= seen[x]
  }

  /** A round's install is of its pod, or of none that is live, and reads nothing older than the round. */
  predicate StartedFor(s: System, i: nat, pod: nat, since: nat) {
    && i < |s.installs| && ReadsFrom(s.installs[i].seen, since)
    && pod in s.pods && s.installs[i].kind.Ordinary?
    && (s.installs[i].pod == Some(pod) || (s.installs[i].pod.None? && s.installs[i].phase.Ended? && !s.pods[pod].live))
  }

  predicate EndedWell(s: System, r: Round, k: nat) {
    k < |r.started| && r.started[k] < |s.installs| && s.installs[r.started[k]].phase == Ended(true)
  }

  predicate EndedBadly(s: System, r: Round, k: nat) {
    k < |r.started| && r.started[k] < |s.installs| && s.installs[r.started[k]].phase == Ended(false)
  }

  /**
   Each listed pod is in flight, failed or installed well, and failed only by its own install; outside an answer,
   installed well.
   */
  predicate RoundHolds(s: System, r: Round) {
    && |r.started| <= |r.pods| && r.since < |s.history| && Distinct(r.pods)
    && (forall k | 0 <= k < |r.pods| :: r.pods[k] in s.pods)
    && (forall k | 0 <= k < |r.started| :: StartedFor(s, r.started[k], r.pods[k], r.since))
    && (forall k | 0 <= k < |r.pods| :: r.pods[k] in r.inFlight || r.pods[k] in r.failed || EndedWell(s, r, k))
    && (forall k | 0 <= k < |r.pods| && r.pods[k] in r.failed :: EndedBadly(s, r, k))
    && (r.answer.Some? ==> forall k | 0 <= k < |r.pods| :: r.pods[k] in r.answer.value || EndedWell(s, r, k))
  }

  predicate RoundsHold(s: System) {
    forall i | 0 <= i < |s.rounds| :: RoundHolds(s, s.rounds[i])
  }

  /** Installs and pods only move on: ended installs stay, reads are added, dead pods stay dead. */
  predicate MovesOn(s: System, t: System) {
    && s.history <= t.history && |s.installs| <= |t.installs|
    && (forall p | p in s.pods :: p in t.pods && (t.pods[p].live ==> s.pods[p].live))
    && (forall i | 0 <= i < |s.installs| ::
          && t.installs[i].kind == s.installs[i].kind
          && (s.installs[i].phase.Ended? ==> t.installs[i] == s.installs[i])
          && (t.installs[i].pod == s.installs[i].pod || s.installs[i].kind.Reconcile?)
          && s.installs[i].seen <= t.installs[i].seen
          && forall x | |s.installs[i].seen| <= x < |t.installs[i].seen| :: t.installs[i].seen[x] == |s.history| - 1)
  }

  lemma StaysOn(s: System)
    ensures MovesOn(s, s)
  {
  }

  lemma OneMovesOn(s: System, t: System, i: nat)
    requires i < |s.installs| == |t.installs| && t.installs == s.installs[i := t.installs[i]]
    requires s.history == t.history && s.pods.Keys == t.pods.Keys
             && forall p | p in s.pods :: t.pods[p].live == s.pods[p].live
    requires t.installs[i].kind == s.installs[i].kind && !s.installs[i].phase.Ended?
    requires t.installs[i].pod == s.installs[i].pod || s.installs[i].kind.Reconcile?
    requires t.installs[i].seen == s.installs[i].seen
             || (s.history != [] && t.installs[i].seen == s.installs[i].seen + [|s.history| - 1])
    ensures MovesOn(s, t)
  {
    assert forall j | 0 <= j < |s.installs| && j != i :: t.installs[j] == s.installs[j];
  }

  lemma AcquireMovesOn(s: System, i: nat, newest: nat)
    ensures MovesOn(s, Do(s, Acquire(i, newest)))
  {
    hide MovesOn;
    StaysOn(s);
    if i < |s.installs| && s.installs[i].phase.Waiting? {
      if Do(s, Acquire(i, newest)) != s {
        OneMovesOn(s, Do(s, Acquire(i, newest)), i);
      }
    }
  }

  lemma ReadMovesOn(s: System, i: nat)
    ensures MovesOn(s, Do(s, Read(i))) && MovesOn(s, Do(s, Fail(i)))
  {
    hide MovesOn;
    StaysOn(s);
    if i < |s.installs| && s.installs[i].phase.Holding? {
      OneMovesOn(s, Do(s, Fail(i)), i);
      if |s.installs[i].seen| < READS && s.history != [] {
        OneMovesOn(s, Do(s, Read(i)), i);
      }
    }
  }

  lemma WriteMovesOn(s: System, i: nat, files: Files)
    ensures MovesOn(s, Do(s, WritePart(i, files))) && MovesOn(s, Do(s, WriteAll(i)))
  {
    hide MovesOn;
    hide FilesFor;
    hide IsMix;
    StaysOn(s);
    if IsWriting(s, i) {
      OneMovesOn(s, Do(s, WriteAll(i)), i);
      if IsMix(files, s.pods[s.installs[i].pod.value].files, FilesOf(s, i)) {
        OneMovesOn(s, Do(s, WritePart(i, files)), i);
      }
    }
  }

  lemma StepMovesOn(s: System, step: Step)
    ensures MovesOn(s, Do(s, step))
  {
    hide FilesFor;
    hide IsMix;
    hide IsWriting;
    hide LockFree;
    hide CanFinish;
    match step
    case Acquire(i, newest) => AcquireMovesOn(s, i, newest);
    case Read(i) => ReadMovesOn(s, i);
    case WritePart(i, files) => WriteMovesOn(s, i, files);
    case WriteAll(i) => WriteMovesOn(s, i, map[]);
    case Fail(i) => ReadMovesOn(s, i);
    case _ =>
  }

  lemma RoundMovesOn(s: System, t: System, r: Round)
    requires RoundHolds(s, r) && MovesOn(s, t)
    ensures RoundHolds(t, r)
  {
    forall k | 0 <= k < |r.started| ensures StartedFor(t, r.started[k], r.pods[k], r.since) {
      assert StartedFor(s, r.started[k], r.pods[k], r.since);
    }
    forall k | 0 <= k < |r.pods| ensures EndedWell(s, r, k) ==> EndedWell(t, r, k) {
    }
  }

  lemma {:induction false} WithoutIs(pods: seq<nat>, pod: nat, p: nat)
    ensures p in Without(pods, pod) <==> p in pods && p != pod
  {
    if pods != [] {
      WithoutIs(pods[1..], pod, p);
    }
  }

  lemma FinishKeepsRound(s: System, round: nat, k: nat)
    requires RoundsHold(s) && CanFinish(s, round, k)
    ensures RoundHolds(s, Do(s, FinishOne(round, k)).rounds[round])
  {
    var r, after := s.rounds[round], Do(s, FinishOne(round, k)).rounds[round];
    assert RoundHolds(s, r);
    forall j | 0 <= j < |r.pods|
      ensures r.pods[j] in after.inFlight || r.pods[j] in after.failed || EndedWell(s, after, j)
    {
      WithoutIs(r.inFlight, r.pods[k], r.pods[j]);
      assert EndedWell(s, r, j) ==> EndedWell(s, after, j);
      if j == k && s.installs[r.started[k]].phase.ok {
        assert EndedWell(s, after, k);
      }
    }
    forall j | 0 <= j < |r.pods| ensures r.answer.Some? ==> r.pods[j] in r.answer.value || EndedWell(s, after, j) {
      assert EndedWell(s, r, j) ==> EndedWell(s, after, j);
    }
  }

  lemma StartKeepsRound(s: System, round: nat)
    requires RoundsHold(s) && round < |s.rounds| && |s.rounds[round].started| < |s.rounds[round].pods|
    requires UnderWay(s.rounds[round]) < INSTALLS_AT_ONCE
    ensures RoundHolds(Do(s, StartNext(round)), Do(s, StartNext(round)).rounds[round])
  {
    hide FilesFor;
    hide LockFree;
    hide IsWriting;
    hide MovesOn;
    var r, t := s.rounds[round], Do(s, StartNext(round));
    var after := t.rounds[round];
    assert RoundHolds(s, r);
    StepMovesOn(s, StartNext(round));
    RoundMovesOn(s, t, r);
    assert r.pods[|r.started|] in s.pods;
    forall k | 0 <= k < |after.started| ensures StartedFor(t, after.started[k], after.pods[k], after.since) {
      if k < |r.started| {
        assert after.started[k] == r.started[k];
      }
    }
    forall k | 0 <= k < |r.pods| ensures EndedWell(t, r, k) ==> EndedWell(t, after, k) {
    }
  }

  lemma ListedRoundHolds(s: System, pods: seq<nat>)
    requires Distinct(pods) && (forall p | p in pods :: IsLive(s, p)) && s.history != []
    ensures RoundHolds(s, Round(pods, |s.history| - 1, [], pods, [], None))
  {
    assert forall k | 0 <= k < |pods| :: pods[k] in pods;
  }

  lemma AnswerKeepsRound(s: System, round: nat)
    requires RoundsHold(s) && round < |s.rounds|
    ensures RoundHolds(s, s.rounds[round].(answer := Some(s.rounds[round].inFlight + s.rounds[round].failed)))
  {
    var r := s.rounds[round];
    var after := r.(answer := Some(r.inFlight + r.failed));
    assert RoundHolds(s, r);
    forall k | 0 <= k < |r.pods| ensures EndedWell(s, r, k) ==> EndedWell(s, after, k) {
    }
  }

  lemma OthersHold(s: System, t: System)
    requires RoundsHold(s) && MovesOn(s, t)
    ensures forall i | 0 <= i < |s.rounds| :: RoundHolds(t, s.rounds[i])
  {
    forall i | 0 <= i < |s.rounds| ensures RoundHolds(t, s.rounds[i]) {
      RoundMovesOn(s, t, s.rounds[i]);
    }
  }

  lemma StepKeepsRounds(s: System, step: Step)
    requires RoundsHold(s)
    ensures RoundsHold(Do(s, step))
  {
    hide LockFree;
    hide IsWriting;
    hide IsNewest;
    hide HasPod;
    hide NewInstall;
    hide Distinct;
    hide Known;
    hide RoundHolds;
    hide MovesOn;
    hide FilesFor;
    hide IsMix;
    var t := Do(s, step);
    StepMovesOn(s, step);
    OthersHold(s, t);
    match step
    case ListPods(pods) =>
      if |t.rounds| > |s.rounds| {
        ListedRoundHolds(s, pods);
        RoundMovesOn(s, t, t.rounds[|s.rounds|]);
      }
    case StartNext(round) =>
      if round < |s.rounds| && |s.rounds[round].started| < |s.rounds[round].pods|
          && UnderWay(s.rounds[round]) < INSTALLS_AT_ONCE {
        StartKeepsRound(s, round);
      }
    case FinishOne(round, k) =>
      if CanFinish(s, round, k) {
        FinishKeepsRound(s, round, k);
        RoundMovesOn(s, t, t.rounds[round]);
      }
    case Answer(round) =>
      if round < |s.rounds| && s.rounds[round].answer.None? {
        AnswerKeepsRound(s, round);
        RoundMovesOn(s, t, t.rounds[round]);
      }
    case _ =>
  }

  lemma StepKeepsEnded(s: System, step: Step)
    requires EndedWrote(s)
    ensures EndedWrote(Do(s, step))
  {
    hide Do;
    hide FilesFor;
    var t := Do(s, step);
    LogGrows(s, step);
    forall i | 0 <= i < |t.installs| && t.installs[i].phase == Ended(true) && t.installs[i].pod.Some?
      ensures exists w :: w in t.log && w.install == i && w.complete
    {
      if i < |s.installs| && s.installs[i].phase == Ended(true) {
        assert t.installs[i] == s.installs[i] by { StepMovesOn(s, step); }
        var w :| w in s.log && w.install == i && w.complete;
        assert w in t.log;
      } else {
        EndedByWriting(s, step, i);
      }
    }
  }

  lemma LogGrows(s: System, step: Step)
    ensures s.log <= Do(s, step).log
  {
    hide FilesFor;
    hide IsMix;
    hide LockFree;
    hide CanFinish;
  }

  lemma EndedByWriting(s: System, step: Step, i: nat)
    requires i < |Do(s, step).installs|
    requires Do(s, step).installs[i].phase == Ended(true) && Do(s, step).installs[i].pod.Some?
    requires i < |s.installs| ==> s.installs[i].phase != Ended(true)
    ensures exists w :: w in Do(s, step).log && w.install == i && w.complete
  {
    hide FilesFor;
    hide IsMix;
    hide LockFree;
    hide CanFinish;
    var t := Do(s, step);
    if step.WriteAll? && IsWriting(s, i) {
      assert t.log[|s.log|] in t.log;
    }
  }

  lemma {:induction false} EveryRunKeepsRounds(start: System, steps: seq<Step>, n: nat)
    requires n <= |steps| && IsStart(start)
    ensures RoundsHold(After(start, steps, n)) && EndedWrote(After(start, steps, n))
  {
    hide Do;
    hide RoundHolds;
    hide EndedWrote;
    if n == 0 {
      StartHasEnded(start);
    } else {
      EveryRunKeepsRounds(start, steps, n - 1);
      StepKeepsRounds(After(start, steps, n - 1), steps[n - 1]);
      StepKeepsEnded(After(start, steps, n - 1), steps[n - 1]);
    }
  }

  lemma StartHasEnded(start: System)
    requires IsStart(start)
    ensures EndedWrote(start)
  {
  }

  /**
   Once a round has answered, a listed pod that the answer leaves out and that is still live was written
   in full by an install that read everything after the pods were listed, so after the change.
   */
  lemma AnswerTellsTheRest(start: System, steps: seq<Step>, n: nat, round: nat, k: nat) returns (a: nat)
    requires n <= |steps| && IsStart(start) && round < |After(start, steps, n).rounds|
    requires var r := After(start, steps, n).rounds[round];
             r.answer.Some? && k < |r.pods| && r.pods[k] !in r.answer.value && IsLive(After(start, steps, n), r.pods[k])
    ensures var s := After(start, steps, n);
            && a < |s.log| && s.log[a].pod == s.rounds[round].pods[k] && s.log[a].complete
            && ReadsFrom(s.log[a].seen, s.rounds[round].since)
  {
    hide Do;
    hide FilesFor;
    hide OneHolds;
    hide HoldersReadLater;
    hide WritesInOrder;
    hide Provenance;
    EveryRunKeepsInv(start, steps, n);
    EveryRunKeepsRounds(start, steps, n);
    var s := After(start, steps, n);
    var r := s.rounds[round];
    assert RoundHolds(s, r) && EndedWell(s, r, k);
    var i := r.started[k];
    assert StartedFor(s, i, r.pods[k], r.since);
    var w :| w in s.log && w.install == i && w.complete;
    a :| 0 <= a < |s.log| && s.log[a] == w;
  }

  // ----- A deleted file does not come back -----

  /** The store can put a file at this path into some pod. */
  predicate Offers(store: Store, path: Path) {
    match path
    case KeyFile(name) => HoldsKey(store.keys, name)
    case SecretFile(name) => name in store.secrets
    case SshConfig => true
    case GitConfig => true
  }

  /** The store puts this text at this path into some pod. */
  predicate Puts(store: Store, path: Path, text: string) {
    match path
    case KeyFile(name) =>
      exists i | 0 <= i < |store.keys| :: store.keys[i].0 == name && WithNewline(store.keys[i].1) == text
    case SecretFile(name) => name in store.secrets && store.secrets[name] == text
    case SshConfig => text == SshConfigText(store.keys) || text == SshConfigText([])
    case GitConfig => text == GitConfigText(store.identity)
  }

  lemma PutIsOffered(store: Store, path: Path, text: string)
    requires Puts(store, path, text)
    ensures Offers(store, path)
  {
    hide WithNewline;
  }

  lemma {:induction false} KeyFilesAreOfKeys(keys: seq<(string, string)>, path: Path)
    requires path in KeyFiles(keys)
    ensures path.KeyFile?
    ensures exists i | 0 <= i < |keys| :: keys[i].0 == path.name && WithNewline(keys[i].1) == KeyFiles(keys)[path]
  {
    hide WithNewline;
    var before, last := keys[..|keys| - 1], keys[|keys| - 1];
    if path == KeyFile(last.0) {
      assert keys[|keys| - 1].0 == path.name;
    } else {
      KeyFilesAreOfKeys(before, path);
      var i :| 0 <= i < |before| && before[i].0 == path.name && WithNewline(before[i].1) == KeyFiles(before)[path];
      assert keys[i] == before[i];
    }
  }

  /** Which read a file's text is from. */
  function TextRead(path: Path): (read: nat)
    ensures read < READS
  {
    match path
    case KeyFile(_) => KEYS_READ
    case SshConfig => KEYS_READ
    case GitConfig => IDENTITY_READ
    case SecretFile(_) => SECRETS_READ
  }

  /** An install writes only what the store held, text and all, when it read it. */
  lemma FilesAreOfTheStore(history: seq<Store>, kind: Kind, conversation: nat, seen: seq<nat>, path: Path)
    requires |seen| == READS && Known(seen, |history|) && path in FilesFor(history, kind, conversation, seen)
    ensures Puts(history[seen[TextRead(path)]], path, FilesFor(history, kind, conversation, seen)[path])
  {
    hide GitFiles;
    hide SecretFiles;
    hide GitSshGranted;
    hide PersonaNames;
    hide WithNewline;
    var asked := AskedBy(kind);
    var gitSsh := GitSshGranted(history[seen[asked.row]], history[seen[asked.keyStored]], conversation);
    var names := PersonaNames(kind, history[seen[asked.names]], conversation);
    var granted := set n | n in names && n in history[seen[asked.backed]].secrets;
    var keys := if gitSsh then history[seen[KEYS_READ]].keys else [];
    SecretsAre(history[seen[SECRETS_READ]].secrets, granted, path);
    if path in SecretFiles(history[seen[SECRETS_READ]].secrets, granted) {
    } else {
      GitFilesAre(keys, history[seen[IDENTITY_READ]].identity, path);
    }
  }

  lemma SecretsAre(secrets: map<string, string>, granted: set<string>, path: Path)
    ensures path in SecretFiles(secrets, granted) ==>
              path.SecretFile? && path.name in secrets && SecretFiles(secrets, granted)[path] == secrets[path.name]
  {
  }

  lemma GitFilesAre(keys: seq<(string, string)>, identity: Identity, path: Path)
    requires path in GitFiles(keys, identity)
    ensures match path
            case KeyFile(name) =>
              exists i | 0 <= i < |keys| ::
                  keys[i].0 == name && WithNewline(keys[i].1) == GitFiles(keys, identity)[path]
            case SecretFile(_) => false
            case SshConfig => GitFiles(keys, identity)[path] == SshConfigText(keys)
            case GitConfig => GitFiles(keys, identity)[path] == GitConfigText(identity)
  {
    hide SshConfigText;
    hide GitConfigText;
    hide KeyFiles;
    hide WithNewline;
    if path in KeyFiles(keys) {
      KeyFilesAreOfKeys(keys, path);
    }
  }

  /**
   Once a round has answered, everything in a listed pod that the answer leaves out and that is still live
   is, text and all, from a write that read nothing older than the round: what some version of the store
   from the round on puts there. A key replaced before the round is in no such pod.
   */
  lemma AnsweredPodsHoldNothingOlder(start: System, steps: seq<Step>, n: nat, round: nat, k: nat, path: Path)
    returns (b: nat, v: nat)
    requires n <= |steps| && IsStart(start) && round < |After(start, steps, n).rounds|
    requires var r := After(start, steps, n).rounds[round];
             r.answer.Some? && k < |r.pods| && r.pods[k] !in r.answer.value && IsLive(After(start, steps, n), r.pods[k])
    requires path in After(start, steps, n).pods[After(start, steps, n).rounds[round].pods[k]].files
    ensures var s := After(start, steps, n);
            var pod, since := s.rounds[round].pods[k], s.rounds[round].since;
            && CameFrom(s.log, b, pod, path, s.pods[pod].files[path]) && ReadsFrom(s.log[b].seen, since)
            && since <= v < |s.history| && Puts(s.history[v], path, s.pods[pod].files[path])
  {
    hide Do;
    hide Inv;
    hide Puts;
    hide ReadsFrom;
    hide CameFrom;
    EveryRunKeepsInv(start, steps, n);
    var a := AnswerTellsTheRest(start, steps, n, round, k);
    b, v := NothingOlder(After(start, steps, n), a, After(start, steps, n).rounds[round].since, path);
  }

  lemma NothingOlder(s: System, a: nat, since: nat, path: Path) returns (b: nat, v: nat)
    requires Inv(s) && a < |s.log| && s.log[a].complete && ReadsFrom(s.log[a].seen, since)
    requires s.log[a].pod in s.pods && path in s.pods[s.log[a].pod].files
    ensures var pod := s.log[a].pod;
            && CameFrom(s.log, b, pod, path, s.pods[pod].files[path]) && ReadsFrom(s.log[b].seen, since)
            && since <= v < |s.history| && Puts(s.history[v], path, s.pods[pod].files[path])
  {
    hide Inv;
    hide FilesFor;
    hide Puts;
    hide Provenance;
    var pod := s.log[a].pod;
    b := SourceOf(s, a, path);
    if a < b {
      WritesAreInOrder(s, a, b);
    }
    WriteIs(s, b);
    v := s.log[b].seen[TextRead(path)];
    var writer := s.installs[s.log[b].install];
    FilesAreOfTheStore(s.history, writer.kind, writer.conversation, s.log[b].seen, path);
  }

  lemma SourceOf(s: System, a: nat, path: Path) returns (b: nat)
    requires Inv(s) && a < |s.log| && s.log[a].complete
    requires s.log[a].pod in s.pods && path in s.pods[s.log[a].pod].files
    ensures a <= b && CameFrom(s.log, b, s.log[a].pod, path, s.pods[s.log[a].pod].files[path])
  {
    hide ReadsExist;
    hide PodsMatch;
    hide OneHolds;
    hide HoldersReadLater;
    hide WritesInOrder;
    var pod := s.log[a].pod;
    assert Sourced(s.log, a, pod, path, s.pods[pod].files[path]);
    b :| a <= b < |s.log| && CameFrom(s.log, b, pod, path, s.pods[pod].files[path]);
  }

  lemma WriteIs(s: System, b: nat)
    requires Inv(s) && b < |s.log|
    ensures var w := s.log[b];
            && |w.seen| == READS && Known(w.seen, |s.history|) && w.install < |s.installs|
            && w.files == FilesFor(s.history, s.installs[w.install].kind, s.installs[w.install].conversation, w.seen)
  {
    hide FilesFor;
    hide PodsMatch;
    hide OneHolds;
    hide HoldersReadLater;
    hide WritesInOrder;
    hide Provenance;
    assert s.log[b] in s.log;
  }

  /**
   A file deleted before a round is in no live pod that the round listed and its answer leaves out, and
   stays out of it for as long as the store does not offer the file again.
   */
  lemma DeletedFilesStayOut(start: System, steps: seq<Step>, n: nat, round: nat, k: nat, path: Path)
    requires n <= |steps| && IsStart(start) && round < |After(start, steps, n).rounds|
    requires var r := After(start, steps, n).rounds[round];
             r.answer.Some? && k < |r.pods| && r.pods[k] !in r.answer.value && IsLive(After(start, steps, n), r.pods[k])
    requires forall v | After(start, steps, n).rounds[round].since <= v < |After(start, steps, n).history| ::
               !Offers(After(start, steps, n).history[v], path)
    ensures var s := After(start, steps, n);
            s.rounds[round].pods[k] in s.pods && path !in s.pods[s.rounds[round].pods[k]].files
  {
    hide Do;
    hide Offers;
    hide Puts;
    var s := After(start, steps, n);
    var pod := s.rounds[round].pods[k];
    if path in s.pods[pod].files {
      var b, v := AnsweredPodsHoldNothingOlder(start, steps, n, round, k, path);
      PutIsOffered(s.history[v], path, s.pods[pod].files[path]);
    }
  }

  // ----- A round's two lists -----

  /** How one pod's install ended. */
  datatype End = End(pod: nat, ok: bool)

  /** The pod's install ended, and each time well. */
  predicate EndedOk(ends: seq<End>, pod: nat) {
    (exists e | e in ends :: e.pod == pod) && (forall e | e in ends && e.pod == pod :: e.ok)
  }

  /** Where a round's installs stand: every pod starts in flight, and leaves when its install ends. */
  class PodInstalls {
    var inFlight: seq<nat>
    var failed: seq<nat>
    /** The pods the round listed, and how installs ended so far. */
    ghost const listed: seq<nat>
    ghost var ends: seq<End>

    /** A listed pod is in flight until its install ends, and failed once an install of it did. */
    ghost predicate Valid()
      reads this
    {
      && (forall p :: p in inFlight <==> p in listed && forall e | e in ends :: e.pod != p)
      && (forall p :: p in failed <==> End(p, false) in ends)
    }

    constructor (pods: seq<nat>)
      ensures Valid() && inFlight == pods && failed == [] && listed == pods && ends == []
    {
      inFlight, failed, listed, ends := pods, [], pods, [];
    }

    /** One pod's install ended. */
    method Finish(pod: nat, ok: bool)
      requires Valid()
      modifies this
      ensures Valid() && ends == old(ends) + [End(pod, ok)]
      ensures inFlight == Without(old(inFlight), pod)
      ensures failed == if ok then old(failed) else old(failed) + [pod]
    {
      var kept := [];
      assert inFlight[0..] == inFlight;
      for i := 0 to |inFlight|
        invariant inFlight == old(inFlight) && failed == old(failed) && ends == old(ends)
        invariant kept + Without(inFlight[i..], pod) == Without(inFlight, pod)
      {
        WithoutStep(inFlight, i, pod, kept);
        if inFlight[i] != pod {
          kept := kept + [inFlight[i]];
        }
      }
      assert kept + [] == kept;
      inFlight := kept;
      if !ok {
        failed := failed + [pod];
      }
      ends := ends + [End(pod, ok)];
      EndLeavesFlight(old(inFlight), pod, listed, old(ends), ok);
    }

    /**
     The pods not known written, read once: a listed pod is left out exactly when its install ended, and ended well.
     */
    method NotKnownWritten() returns (pods: seq<nat>)
      requires Valid()
      ensures forall p | p in listed :: p !in pods <==> EndedOk(ends, p)
      ensures pods == inFlight + failed
    {
      pods := inFlight + failed;
      forall p | p in listed ensures p !in pods <==> EndedOk(ends, p) {
        assert p in pods <==> p in inFlight || p in failed;
        FailedIsNotOk(ends, p);
      }
    }
  }

  lemma WithoutStep(pods: seq<nat>, i: nat, pod: nat, kept: seq<nat>)
    requires i < |pods|
    ensures kept + Without(pods[i..], pod)
            == (if pods[i] == pod then kept else kept + [pods[i]]) + Without(pods[i + 1..], pod)
  {
    assert pods[i..][1..] == pods[i + 1..];
    Assoc(kept, [pods[i]], Without(pods[i + 1..], pod));
    if pods[i] == pod {
      assert [] + Without(pods[i + 1..], pod) == Without(pods[i + 1..], pod);
    }
  }

  lemma EndLeavesFlight(inFlight: seq<nat>, pod: nat, listed: seq<nat>, ends: seq<End>, ok: bool)
    requires forall p :: p in inFlight <==> p in listed && forall e | e in ends :: e.pod != p
    ensures forall p ::
              p in Without(inFlight, pod) <==> p in listed && forall e | e in ends + [End(pod, ok)] :: e.pod != p
  {
    assert End(pod, ok) in ends + [End(pod, ok)];
    forall p
      ensures p in Without(inFlight, pod) <==> p in listed && forall e | e in ends + [End(pod, ok)] :: e.pod != p
    {
      WithoutIs(inFlight, pod, p);
    }
  }

  lemma FailedIsNotOk(ends: seq<End>, pod: nat)
    ensures EndedOk(ends, pod) <==> (exists e | e in ends :: e.pod == pod) && End(pod, false) !in ends
  {
    assert forall e | e in ends && e.pod == pod && !e.ok :: e == End(pod, false);
  }
}
