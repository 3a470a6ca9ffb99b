/**
 The send loop's thinking-binding protocol (`stream_message` in `src/anthropic/stream.rs`): how a
 refused request is tried again in another form, what the provider memory learns, and the retry
 budget all forms share. Calls run side by side over one memory, so the laws are invariants of a
 transition system of calls.
 */
module SendLoop {
  import opened Wrappers

  datatype Binding = AsIs | DropBlock | Strip

  /** A provider's identity: its address and credential, hashed. */
  type ProviderKey = int

  /**
   What a request got: a transport failure, or a status with what the two readers of an error body
   say of it (`is_binding_mismatch`, `refuses_binding_controls`).
   */
  datatype Reply = Failed | Answer(status: nat, mismatch: bool, refusesControls: bool)

  const RETRIES: nat := 2

  predicate IsSuccess(status: nat) {
    200 <= status < 300
  }

  predicate IsTransientStatus(status: nat) {
    status == 429 || status == 503 || status == 529
  }

  type Memory = map<ProviderKey, Binding>

  function BindingFor(known: Memory, key: ProviderKey, thinking: bool): Binding {
    var remembered := if key in known then known[key] else AsIs;
    if remembered.DropBlock? && thinking then DropBlock else AsIs
  }

  function Untried(tried: seq<Binding>, b: Binding): Option<Binding> {
    if b in tried then None else Some(b)
  }

  /** The next form to try after a 400 refused `binding`, if another try can help. */
  function NextBinding(binding: Binding, tried: seq<Binding>, thinking: bool, reply: Reply): Option<Binding>
    requires reply.Answer?
  {
    match binding
    case AsIs =>
      if !reply.mismatch then None
      else if thinking then Untried(tried, DropBlock).Or(Untried(tried, Strip))
      else Untried(tried, Strip)
    case DropBlock =>
      if reply.mismatch || reply.refusesControls then Untried(tried, AsIs).Or(Untried(tried, Strip)) else None
    case Strip => None
  }

  datatype Exchange = Exchange(form: Binding, reply: Reply)

  datatype Status = Sending | Succeeded | GaveUp

  /** One call: the loop's variables, and what it has sent and got so far. */
  datatype Call = Call(key: ProviderKey, thinking: bool, binding: Binding, tried: seq<Binding>,
                       attempt: nat, status: Status, log: seq<Exchange>)

  function Begun(known: Memory, key: ProviderKey, thinking: bool): Call {
    var binding := BindingFor(known, key, thinking);
    Call(key, thinking, binding, [binding], 0, Sending, [])
  }

  /** What the loop does with one reply. */
  function OnReply(call: Call, reply: Reply): Call {
    var sent := call.(log := call.log + [Exchange(call.binding, reply)]);
    if reply.Failed? then sent.(status := GaveUp)
    else if IsSuccess(reply.status) then sent.(status := Succeeded)
    else if IsTransientStatus(reply.status) && call.attempt < RETRIES then sent.(attempt := call.attempt + 1)
    else if reply.status == 400 && NextBinding(call.binding, call.tried, call.thinking, reply).Some? then
      var next := NextBinding(call.binding, call.tried, call.thinking, reply).value;
      sent.(binding := next, tried := call.tried + [next])
    else sent.(status := GaveUp)
  }

  /** What the provider memory learns from one reply. */
  function Learned(known: Memory, call: Call, reply: Reply): Memory {
    if reply.Failed? then known
    else if IsSuccess(reply.status) then (if call.binding.DropBlock? then known[call.key := DropBlock] else known)
    else if IsTransientStatus(reply.status) && call.attempt < RETRIES then known
    else if reply.status == 400 && call.binding.DropBlock?
         && NextBinding(call.binding, call.tried, call.thinking, reply).Some? then known - {call.key}
    else known
  }

  // ----- What every call keeps -----

  predicate Distinct(forms: seq<Binding>) {
    forall a, b | 0 <= a < b < |forms| :: forms[a] != forms[b]
  }

  /** The forms a log entered, in order: each run of the same form counts once. */
  function Entered(log: seq<Exchange>): seq<Binding> {
    if log == [] then []
    else
      var before := Entered(log[..|log| - 1]);
      var form := log[|log| - 1].form;
      if |log| > 1 && log[|log| - 2].form == form then before else before + [form]
  }

  /** The request as built was refused as a binding mismatch. */
  predicate AsBuiltRefused(log: seq<Exchange>) {
    exists k | 0 <= k < |log| ::
      log[k].form == AsIs && log[k].reply.Answer? && log[k].reply.status == 400 && log[k].reply.mismatch
  }

  /** A stripped request is sent only after the as-built one was refused as a binding mismatch. */
  predicate StripsAfterRefusal(log: seq<Exchange>) {
    forall m | 0 <= m < |log| && log[m].form == Strip :: AsBuiltRefused(log[..m])
  }

  predicate DropsOnlyWithThinking(call: Call) {
    forall e | e in call.log && e.form == DropBlock :: call.thinking
  }

  /** How far the loop is: each request sent is a form left, a retry spent, or the call's end. */
  ghost predicate Counts(call: Call) {
    && |call.tried| > 0 && Distinct(call.tried) && call.tried[|call.tried| - 1] == call.binding
    && call.attempt <= RETRIES
    && |call.log| == |call.tried| - 1 + call.attempt + (if call.status.Sending? then 0 else 1)
  }

  /** The log entered the forms tried, in order; the last of them may not have been sent yet. */
  ghost predicate EntersTried(call: Call)
    requires Counts(call)
  {
    if |call.log| > 0 && call.log[|call.log| - 1].form == call.binding then Entered(call.log) == call.tried
    else call.status.Sending? && Entered(call.log) == call.tried[..|call.tried| - 1]
  }

  /** Why each form was tried. */
  ghost predicate Justified(call: Call) {
    && (DropBlock in call.tried ==> call.thinking)
    && DropsOnlyWithThinking(call)
    && (AsIs in call.tried && !call.binding.AsIs? ==> AsBuiltRefused(call.log))
    && (Strip in call.tried ==> AsBuiltRefused(call.log))
    && StripsAfterRefusal(call.log)
  }

  /** The loop invariant of one call. */
  ghost predicate CallKeeps(call: Call) {
    Counts(call) && EntersTried(call) && Justified(call)
  }

  lemma BegunKeeps(known: Memory, key: ProviderKey, thinking: bool)
    ensures CallKeeps(Begun(known, key, thinking))
  {
  }

  /** A refused form is followed by one not tried yet, for a reason the refusal gives. */
  lemma NextIsFresh(binding: Binding, tried: seq<Binding>, thinking: bool, reply: Reply)
    requires reply.Answer?
    ensures match NextBinding(binding, tried, thinking, reply)
            case None => true
            case Some(next) =>
              && next !in tried
              && (binding == AsIs ==> reply.mismatch)
              && (next == DropBlock ==> thinking && binding == AsIs)
              && (next == Strip && binding == DropBlock ==> AsIs in tried)
  {
  }

  lemma EnteredGrows(log: seq<Exchange>, e: Exchange)
    ensures Entered(log + [e])
         == if |log| > 0 && log[|log| - 1].form == e.form then Entered(log) else Entered(log) + [e.form]
  {
    assert (log + [e])[..|log|] == log;
  }

  lemma RefusalIsKept(log: seq<Exchange>, e: Exchange)
    ensures AsBuiltRefused(log) ==> AsBuiltRefused(log + [e])
    ensures e.form == AsIs && e.reply.Answer? && e.reply.status == 400 && e.reply.mismatch ==> AsBuiltRefused(log + [e])
  {
    var longer := log + [e];
    if AsBuiltRefused(log) {
      var k :| 0 <= k < |log| && log[k].form == AsIs && log[k].reply.Answer? && log[k].reply.status == 400
          && log[k].reply.mismatch;
      assert longer[k] == log[k];
    }
    if e.form == AsIs && e.reply.Answer? && e.reply.status == 400 && e.reply.mismatch {
      assert longer[|log|] == e;
    }
  }

  lemma StripsGrow(log: seq<Exchange>, e: Exchange)
    requires StripsAfterRefusal(log) && (e.form == Strip ==> AsBuiltRefused(log))
    ensures StripsAfterRefusal(log + [e])
  {
    hide AsBuiltRefused;
    var longer := log + [e];
    forall m | 0 <= m < |longer| && longer[m].form == Strip ensures AsBuiltRefused(longer[..m]) {
      if m < |log| {
        assert longer[..m] == log[..m];
      } else {
        assert longer[..m] == log;
      }
    }
  }

  lemma DistinctGrows(tried: seq<Binding>, next: Binding)
    requires Distinct(tried) && next !in tried
    ensures Distinct(tried + [next]) && (tried + [next])[..|tried|] == tried
    ensures forall b :: b in tried + [next] <==> b in tried || b == next
  {
    forall a, b | 0 <= a < b < |tried + [next]| ensures (tried + [next])[a] != (tried + [next])[b] {
      assert tried[a] in tried;
    }
  }

  lemma OnReplyLogs(call: Call, reply: Reply)
    ensures OnReply(call, reply).log == call.log + [Exchange(call.binding, reply)]
  {
    hide NextBinding;
  }

  lemma LastPutBack(tried: seq<Binding>)
    requires tried != []
    ensures tried[..|tried| - 1] + [tried[|tried| - 1]] == tried
  {
  }

  /** Once the current form is sent, the log has entered every form tried. */
  lemma SendingEnters(call: Call, reply: Reply)
    requires Counts(call) && EntersTried(call) && call.status.Sending?
    ensures Entered(OnReply(call, reply).log) == call.tried
  {
    hide Entered;
    hide OnReply;
    hide Distinct;
    OnReplyLogs(call, reply);
    EnteredGrows(call.log, Exchange(call.binding, reply));
    LastPutBack(call.tried);
  }

  lemma ReplyKeepsCounts(call: Call, reply: Reply)
    requires Counts(call) && EntersTried(call) && call.status.Sending?
    ensures Counts(OnReply(call, reply)) && EntersTried(OnReply(call, reply))
  {
    ReplyKeepsHow(call, reply);
    ReplyEnters(call, reply);
  }

  lemma ReplyKeepsHow(call: Call, reply: Reply)
    requires Counts(call) && call.status.Sending?
    ensures Counts(OnReply(call, reply))
  {
    hide NextBinding;
    hide Distinct;
    var after := OnReply(call, reply);
    if after.tried != call.tried {
      NextIsFresh(call.binding, call.tried, call.thinking, reply);
      DistinctGrows(call.tried, after.binding);
    }
  }

  lemma ReplyEnters(call: Call, reply: Reply)
    requires Counts(call) && EntersTried(call) && call.status.Sending? && Counts(OnReply(call, reply))
    ensures EntersTried(OnReply(call, reply))
  {
    hide NextBinding;
    hide Entered;
    hide Distinct;
    SendingEnters(call, reply);
    var after := OnReply(call, reply);
    assert after.log[|after.log| - 1].form == call.binding;
    if after.tried != call.tried {
      NextIsFresh(call.binding, call.tried, call.thinking, reply);
      assert call.tried[|call.tried| - 1] in call.tried;
      assert after.tried[..|after.tried| - 1] == call.tried;
    }
  }

  lemma ReplyKeepsJustified(call: Call, reply: Reply)
    requires Counts(call) && Justified(call) && call.status.Sending?
    ensures Justified(OnReply(call, reply))
  {
    hide Entered;
    hide EntersTried;
    hide NextBinding;
    hide Distinct;
    var e := Exchange(call.binding, reply);
    var after := OnReply(call, reply);
    RefusalIsKept(call.log, e);
    assert call.tried[|call.tried| - 1] in call.tried;
    StripsGrow(call.log, e);
    assert DropsOnlyWithThinking(after) by {
      forall x | x in after.log && x.form == DropBlock ensures after.thinking {
        assert x in call.log || x == e;
      }
    }
    if after.tried != call.tried {
      NextIsFresh(call.binding, call.tried, call.thinking, reply);
      DistinctGrows(call.tried, after.binding);
    }
  }

  lemma ReplyKeeps(call: Call, reply: Reply)
    requires CallKeeps(call) && call.status.Sending?
    ensures CallKeeps(OnReply(call, reply))
  {
    hide Counts;
    hide EntersTried;
    hide Justified;
    hide OnReply;
    ReplyKeepsCounts(call, reply);
    ReplyKeepsJustified(call, reply);
  }

  lemma FourRepeat(tried: seq<Binding>)
    requires |tried| > 3
    ensures !Distinct(tried)
  {
    assert tried[0] == tried[1] || tried[0] == tried[2] || tried[0] == tried[3]
        || tried[1] == tried[2] || tried[1] == tried[3] || tried[2] == tried[3];
  }

  /** What a reader of the loop wants to know of any call. */
  ghost predicate Promised(call: Call) {
    && |call.log| <= 5
    && |call.log| <= |Entered(call.log)| + RETRIES
    && Distinct(Entered(call.log))
    && DropsOnlyWithThinking(call)
    && StripsAfterRefusal(call.log)
  }

  lemma KeepsPromises(call: Call)
    requires CallKeeps(call)
    ensures Promised(call)
  {
    if |call.tried| > 3 { FourRepeat(call.tried); }
  }

  // ----- Calls side by side over one memory -----

  type CallId = nat

  datatype System = System(known: Memory, calls: map<CallId, Call>)

  datatype Action =
    | Begin(id: CallId, key: ProviderKey, thinking: bool)
    | Receive(id: CallId, reply: Reply)
    | Restart

  /** One atomic step. A step that isn't enabled changes nothing; a restart forgets the memory and ends its calls. */
  function Act(s: System, a: Action): System {
    match a
    case Begin(id, key, thinking) =>
      if id in s.calls then s else s.(calls := s.calls[id := Begun(s.known, key, thinking)])
    case Receive(id, reply) =>
      if id !in s.calls || !s.calls[id].status.Sending? then s
      else System(Learned(s.known, s.calls[id], reply), s.calls[id := OnReply(s.calls[id], reply)])
    case Restart => System(map[], map[])
  }

  function ActAll(s: System, actions: seq<Action>): System {
    if actions == [] then s else Act(ActAll(s, actions[..|actions| - 1]), actions[|actions| - 1])
  }

  ghost predicate SystemKeeps(s: System) {
    && (forall key | key in s.known :: s.known[key] == DropBlock)
    && (forall id | id in s.calls :: CallKeeps(s.calls[id]))
  }

  lemma ActKeeps(s: System, a: Action)
    requires SystemKeeps(s)
    ensures SystemKeeps(Act(s, a))
  {
    hide CallKeeps;
    match a
    case Begin(id, key, thinking) => BegunKeeps(s.known, key, thinking);
    case Receive(id, reply) =>
      if id in s.calls && s.calls[id].status.Sending? {
        ReplyKeeps(s.calls[id], reply);
        LearnsDropBlock(s.known, s.calls[id], reply);
      }
    case Restart =>
  }

  lemma LearnsDropBlock(known: Memory, call: Call, reply: Reply)
    requires forall key | key in known :: known[key] == DropBlock
    ensures var after := Learned(known, call, reply); forall key | key in after :: after[key] == DropBlock
  {
    hide NextBinding;
  }

  /**
   In every interleaving of calls: at most five requests go out per call, at most two of them retries
   of the form before, shared by all its forms; each form is entered at most once, drop-block goes out
   only with thinking on, a stripped request only after the as-built one was refused as a binding
   mismatch, and the memory only ever holds drop-block.
   */
  lemma {:induction false} EveryRunKeepsPromises(actions: seq<Action>)
    ensures var s := ActAll(System(map[], map[]), actions);
            && SystemKeeps(s)
            && (forall key | key in s.known :: s.known[key] == DropBlock)
            && (forall id | id in s.calls :: Promised(s.calls[id]))
  {
    hide CallKeeps;
    hide Promised;
    var start := System(map[], map[]);
    if actions != [] {
      EveryRunKeepsPromises(actions[..|actions| - 1]);
      ActKeeps(ActAll(start, actions[..|actions| - 1]), actions[|actions| - 1]);
    }
    var s := ActAll(start, actions);
    forall id | id in s.calls ensures Promised(s.calls[id]) {
      KeepsPromises(s.calls[id]);
    }
  }

  /** A form is remembered only after the provider took it: a success sent as drop-block. */
  lemma MemoryIsEarned(known: Memory, call: Call, reply: Reply, key: ProviderKey)
    requires key in Learned(known, call, reply) && key !in known
    ensures key == call.key && call.binding == DropBlock && reply.Answer? && IsSuccess(reply.status)
    ensures OnReply(call, reply).status == Succeeded
  {
  }

  // ----- What is sent, and when a call ends -----

  predicate WasSent(log: seq<Exchange>, form: Binding) {
    exists k | 0 <= k < |log| :: log[k].form == form
  }

  predicate Unavailable(reply: Reply) {
    reply.Answer? && (reply.status == 429 || reply.status == 503 || reply.status == 529)
  }

  /** How many replies said the provider was unavailable. */
  function Waits(log: seq<Exchange>): nat {
    if log == [] then 0 else Waits(log[..|log| - 1]) + if Unavailable(log[|log| - 1].reply) then 1 else 0
  }

  predicate Ends(log: seq<Exchange>, low: nat, high: nat) {
    && log != [] && log[|log| - 1].reply.Answer?
    && low <= log[|log| - 1].reply.status < high
  }

  /**
   What `form` a call sends after these exchanges. The same again while the provider is unavailable, at most
   twice in all. Refused as bound to another conversation, the request as built is sent as drop-block if there
   is thinking, and stripped if not or once that was sent. Refused so or for its controls, drop-block is sent
   as built, and stripped once that was sent. No other refusal is sent again, nor any form refused.
   */
  predicate SendsNext(thinking: bool, log: seq<Exchange>, form: Binding)
    requires log != []
  {
    var front, last := log[..|log| - 1], log[|log| - 1];
    var refused := last.reply.Answer? && last.reply.status == 400;
    || (Unavailable(last.reply) && Waits(front) < 2 && form == last.form)
    || (&& refused && last.form == AsIs && last.reply.mismatch && !WasSent(log, form)
        && if thinking && !WasSent(log, DropBlock) then form == DropBlock else form == Strip)
    || (&& refused && last.form == DropBlock && (last.reply.mismatch || last.reply.refusesControls)
        && !WasSent(log, form)
        && if !WasSent(log, AsIs) then form == AsIs else form == Strip)
  }

  /** Each request is the one due, and the call ends when none is: a success, or given up. */
  predicate Follows(call: Call) {
    && (forall k | 0 < k < |call.log| :: SendsNext(call.thinking, call.log[..k], call.log[k].form))
    && (call.status.Sending? && call.log != [] ==> SendsNext(call.thinking, call.log, call.binding))
    && (call.status.Succeeded? <==> Ends(call.log, 200, 300))
    && (call.status.GaveUp? <==>
          && call.log != [] && !Ends(call.log, 200, 300)
          && forall form :: !SendsNext(call.thinking, call.log, form))
  }

  /** What the loop's variables are while it sends. */
  predicate Tracks(call: Call) {
    call.status.Sending? ==>
      && call.attempt == Waits(call.log)
      && forall form :: form in call.tried <==> WasSent(call.log, form) || form == call.binding
  }

  lemma BegunFollows(known: Memory, key: ProviderKey, thinking: bool)
    ensures Follows(Begun(known, key, thinking)) && Tracks(Begun(known, key, thinking))
  {
  }

  lemma SentGrows(log: seq<Exchange>, e: Exchange, form: Binding)
    ensures WasSent(log + [e], form) <==> WasSent(log, form) || form == e.form
    ensures Waits(log + [e]) == Waits(log) + if Unavailable(e.reply) then 1 else 0
  {
    var longer := log + [e];
    assert longer[..|log|] == log && longer[|log|] == e;
    if WasSent(log, form) {
      var k :| 0 <= k < |log| && log[k].form == form;
      assert longer[k].form == form;
    }
    if form == e.form {
      assert longer[|log|].form == form;
    }
  }

  /** What the loop does with a reply is what is due after it. */
  lemma ReplyIsDue(call: Call, reply: Reply)
    requires call.status.Sending? && Tracks(call)
    ensures var after := OnReply(call, reply);
            && after.log == call.log + [Exchange(call.binding, reply)] && after.thinking == call.thinking
            && (after.status.Sending? ==> SendsNext(call.thinking, after.log, after.binding))
            && (after.status.Succeeded? <==> Ends(after.log, 200, 300))
            && (after.status.GaveUp? <==>
                  !Ends(after.log, 200, 300) && forall form :: !SendsNext(call.thinking, after.log, form))
            && Tracks(after)
  {
    hide WasSent;
    hide Waits;
    var e := Exchange(call.binding, reply);
    var after := OnReply(call, reply);
    OnReplyLogs(call, reply);
    assert after.log[..|call.log|] == call.log;
    forall form ensures WasSent(after.log, form) <==> form in call.tried {
      SentGrows(call.log, e, form);
    }
    SentGrows(call.log, e, AsIs);
  }

  lemma ReplyFollows(call: Call, reply: Reply)
    requires Follows(call) && Tracks(call) && call.status.Sending?
    ensures Follows(OnReply(call, reply)) && Tracks(OnReply(call, reply))
  {
    hide SendsNext;
    hide Tracks;
    hide Ends;
    hide OnReply;
    ReplyIsDue(call, reply);
    var after := OnReply(call, reply);
    forall k | 0 < k < |after.log| ensures SendsNext(call.thinking, after.log[..k], after.log[k].form) {
      if k < |call.log| {
        assert after.log[..k] == call.log[..k] && after.log[k] == call.log[k];
      } else {
        assert after.log[..k] == call.log && after.log[k].form == call.binding;
      }
    }
  }

  /**
   Exactly what every call sends and how it ends: the first form, each next one, and that it gives up only
   when none is due. The first is drop-block if there is thinking and the provider took drop-block before.
   */
  lemma {:induction false} EveryCallFollows(known: Memory, key: ProviderKey, thinking: bool, replies: seq<Reply>)
    ensures var end := RunCall(Begun(known, key, thinking), replies);
            && Follows(end) && end.thinking == thinking && |end.log| <= |replies|
            && (forall k | 0 <= k < |end.log| :: end.log[k].reply == replies[k])
            && (end.status.Sending? ==> |end.log| == |replies|)
            && (end.log != [] ==>
                  end.log[0].form == if thinking && key in known && known[key] == DropBlock then DropBlock else AsIs)
  {
    hide Follows;
    hide Tracks;
    hide OnReply;
    BegunFollows(known, key, thinking);
    assert replies[0..] == replies;
    RunFollows(Begun(known, key, thinking), replies, 0);
  }

  lemma {:induction false} RunFollows(call: Call, replies: seq<Reply>, at: nat)
    requires at == |call.log| <= |replies| && Follows(call) && Tracks(call)
    requires forall k | 0 <= k < at :: call.log[k].reply == replies[k]
    ensures var end := RunCall(call, replies[at..]);
            && Follows(end) && end.thinking == call.thinking && call.log <= end.log && |end.log| <= |replies|
            && (forall k | 0 <= k < |end.log| :: end.log[k].reply == replies[k])
            && (end.status.Sending? ==> |end.log| == |replies|)
            && (end.log != [] ==> end.log[0].form == if call.log == [] then call.binding else call.log[0].form)
    decreases |replies| - at
  {
    hide Follows;
    hide Tracks;
    hide OnReply;
    if at < |replies| && call.status.Sending? {
      OnReplyLogs(call, replies[at]);
      ReplyFollows(call, replies[at]);
      ReplyKeepsThinking(call, replies[at]);
      assert replies[at..][1..] == replies[at + 1..];
      RunFollows(OnReply(call, replies[at]), replies, at + 1);
    }
  }

  lemma ReplyKeepsThinking(call: Call, reply: Reply)
    ensures OnReply(call, reply).thinking == call.thinking
  {
  }

  /** A form other than the last is due. */
  predicate SendsAnother(thinking: bool, log: seq<Exchange>)
    requires log != []
  {
    exists form :: form != log[|log| - 1].form && SendsNext(thinking, log, form)
  }

  /** What the memory learns: the form a success was sent as, and nothing more of one refused for another. */
  lemma MemoryIsExact(known: Memory, call: Call, reply: Reply)
    requires call.status.Sending? && Tracks(call)
    ensures var log := call.log + [Exchange(call.binding, reply)];
            var learned :=
              if call.binding == DropBlock && Ends(log, 200, 300) then known[call.key := DropBlock]
              else if call.binding == DropBlock && SendsAnother(call.thinking, log) then known - {call.key}
              else known;
            Learned(known, call, reply) == learned
  {
    hide WasSent;
    hide Waits;
    var e := Exchange(call.binding, reply);
    var log := call.log + [e];
    assert log[..|call.log|] == call.log;
    forall form ensures WasSent(log, form) <==> form in call.tried {
      SentGrows(call.log, e, form);
    }
    if reply.Answer? && !(Unavailable(reply) && call.attempt < RETRIES) && reply.status == 400
      && NextBinding(call.binding, call.tried, call.thinking, reply).Some?
    {
      assert SendsNext(call.thinking, log, NextBinding(call.binding, call.tried, call.thinking, reply).value);
    }
  }

  const BOUND_ELSEWHERE := Answer(400, true, false)

  lemma RunsOne(call: Call, known: Memory, reply: Reply, more: seq<Reply>)
    requires call.status.Sending?
    ensures RunCall(call, [reply] + more) == RunCall(OnReply(call, reply), more)
    ensures RunMemory(known, call, [reply] + more) == RunMemory(Learned(known, call, reply), OnReply(call, reply), more)
  {
    hide OnReply;
    hide Learned;
    assert ([reply] + more)[1..] == more;
  }

  /** A refusal as bound elsewhere sends the next form. */
  lemma BoundSendsNext(call: Call, next: Binding)
    requires call.status.Sending? && call.tried == (if call.binding == AsIs then [AsIs] else [AsIs, DropBlock])
    requires (call.binding == AsIs && next == if call.thinking then DropBlock else Strip)
             || (call.binding == DropBlock && next == Strip)
    ensures OnReply(call, BOUND_ELSEWHERE)
         == call.(log := call.log + [Exchange(call.binding, BOUND_ELSEWHERE)], binding := next, tried :=
                  call.tried + [next])
  {
  }

  lemma TakenSucceeds(call: Call, known: Memory, taken: Reply)
    requires call.status.Sending? && taken.Answer? && 200 <= taken.status < 300
    ensures var end := RunCall(call, [taken]);
            end.status == Succeeded && Forms(end.log) == Forms(call.log) + [call.binding]
    ensures call.binding == DropBlock ==> RunMemory(known, call, [taken]) == known[call.key := DropBlock]
  {
    RunsOne(call, known, taken, []);
    assert [taken] + [] == [taken];
    FormsGrow(call.log, Exchange(call.binding, taken));
  }

  /**
   A request bound elsewhere recovers: without its blocks if there is thinking, and stripped if that is refused too.
   */
  lemma RecoveryReaches(key: ProviderKey, thinking: bool, known: Memory, taken: Reply)
    requires key !in known && taken.Answer? && 200 <= taken.status < 300
    ensures var begun := Begun(known, key, thinking);
            var end := RunCall(begun, [BOUND_ELSEWHERE] + [taken]);
            && end.status == Succeeded && Forms(end.log) == [AsIs, if thinking then DropBlock else Strip]
            && (thinking ==> RunMemory(known, begun, [BOUND_ELSEWHERE] + [taken]) == known[key := DropBlock])
    ensures var end := RunCall(Begun(known, key, true), [BOUND_ELSEWHERE] + ([BOUND_ELSEWHERE] + [taken]));
            end.status == Succeeded && Forms(end.log) == [AsIs, DropBlock, Strip]
  {
    hide OnReply;
    hide RunCall;
    hide RunMemory;
    hide Forms;
    NoForms();
    RefusedOnce(key, thinking, known, taken);
    RefusedTwice(key, known, taken);
  }

  lemma NoForms()
    ensures Forms([]) == []
  {
  }

  lemma RefusedOnce(key: ProviderKey, thinking: bool, known: Memory, taken: Reply)
    requires key !in known && taken.Answer? && 200 <= taken.status < 300
    ensures var begun := Begun(known, key, thinking);
            var end := RunCall(begun, [BOUND_ELSEWHERE] + [taken]);
            && end.status == Succeeded && Forms(end.log) == [AsIs, if thinking then DropBlock else Strip]
            && (thinking ==> RunMemory(known, begun, [BOUND_ELSEWHERE] + [taken]) == known[key := DropBlock])
  {
    hide OnReply;
    hide RunCall;
    hide RunMemory;
    hide Forms;
    var begun, next := Begun(known, key, thinking), if thinking then DropBlock else Strip;
    NoForms();
    RunsOne(begun, known, BOUND_ELSEWHERE, [taken]);
    BoundSendsNext(begun, next);
    FormsGrow(begun.log, Exchange(AsIs, BOUND_ELSEWHERE));
    TakenSucceeds(OnReply(begun, BOUND_ELSEWHERE), Learned(known, begun, BOUND_ELSEWHERE), taken);
    assert [AsIs] + [next] == [AsIs, next];
  }

  lemma RefusedTwice(key: ProviderKey, known: Memory, taken: Reply)
    requires key !in known && taken.Answer? && 200 <= taken.status < 300
    ensures var end := RunCall(Begun(known, key, true), [BOUND_ELSEWHERE] + ([BOUND_ELSEWHERE] + [taken]));
            end.status == Succeeded && Forms(end.log) == [AsIs, DropBlock, Strip]
  {
    hide OnReply;
    hide RunCall;
    hide RunMemory;
    hide Forms;
    var begun := Begun(known, key, true);
    NoForms();
    RunsOne(begun, known, BOUND_ELSEWHERE, [BOUND_ELSEWHERE] + [taken]);
    BoundSendsNext(begun, DropBlock);
    var dropped := OnReply(begun, BOUND_ELSEWHERE);
    FormsGrow(begun.log, Exchange(AsIs, BOUND_ELSEWHERE));
    RunsOne(dropped, known, BOUND_ELSEWHERE, [taken]);
    assert [AsIs] + [DropBlock] == [AsIs, DropBlock];
    BoundSendsNext(dropped, Strip);
    FormsGrow(dropped.log, Exchange(DropBlock, BOUND_ELSEWHERE));
    TakenSucceeds(OnReply(dropped, BOUND_ELSEWHERE), known, taken);
    assert [] + [AsIs] + [DropBlock] + [Strip] == [AsIs, DropBlock, Strip];
  }

  // ----- The loop itself -----

  /** One call run over a list of replies. */
  function RunCall(call: Call, replies: seq<Reply>): Call
    decreases |replies|
  {
    if replies == [] || !call.status.Sending? then call else RunCall(OnReply(call, replies[0]), replies[1..])
  }

  function RunMemory(known: Memory, call: Call, replies: seq<Reply>): Memory
    decreases |replies|
  {
    if replies == [] || !call.status.Sending? then known
    else RunMemory(Learned(known, call, replies[0]), OnReply(call, replies[0]), replies[1..])
  }

  /** What the provider said to one call. */
  function RepliesTo(actions: seq<Action>, id: CallId): seq<Reply> {
    if actions == [] then []
    else
      var front, last := actions[..|actions| - 1], actions[|actions| - 1];
      RepliesTo(front, id) + if last.Receive? && last.id == id then [last.reply] else []
  }

  lemma {:induction false} RunCallSnoc(call: Call, replies: seq<Reply>, reply: Reply)
    ensures var end := RunCall(call, replies);
            RunCall(call, replies + [reply]) == if end.status.Sending? then OnReply(end, reply) else end
    decreases |replies|
  {
    hide OnReply;
    if replies == [] {
      assert [reply][1..] == [] && [] + [reply] == [reply];
    } else {
      assert (replies + [reply])[1..] == replies[1..] + [reply];
      if call.status.Sending? {
        RunCallSnoc(OnReply(call, replies[0]), replies[1..], reply);
      }
    }
  }

  /** Among calls side by side, each runs as it would alone on its own replies, from the memory it began with. */
  lemma {:induction false} CallsRunAsAlone(actions: seq<Action>, begin: nat, id: CallId, key: ProviderKey,
                                           thinking: bool)
    requires begin < |actions| && actions[begin] == Begin(id, key, thinking)
    requires id !in ActAll(System(map[], map[]), actions[..begin]).calls
    requires forall k | begin < k < |actions| :: !actions[k].Restart?
    ensures var known := ActAll(System(map[], map[]), actions[..begin]).known;
            var calls := ActAll(System(map[], map[]), actions).calls;
            id in calls && calls[id] == RunCall(Begun(known, key, thinking), RepliesTo(actions[begin + 1..], id))
    decreases |actions|
  {
    hide RunCall;
    hide OnReply;
    hide Learned;
    hide Begun;
    var front, last := actions[..|actions| - 1], actions[|actions| - 1];
    var known := ActAll(System(map[], map[]), actions[..begin]).known;
    var call := Begun(known, key, thinking);
    if begin == |actions| - 1 {
      assert actions[begin + 1..] == [];
      RunsNothing(call);
    } else {
      assert front[..begin] == actions[..begin] && front[begin] == actions[begin];
      CallsRunAsAlone(front, begin, id, key, thinking);
      var replies := RepliesTo(front[begin + 1..], id);
      var after := actions[begin + 1..];
      assert after[..|after| - 1] == front[begin + 1..] && after[|after| - 1] == last;
      assert replies + [] == replies;
      if last.Receive? && last.id == id {
        RunCallSnoc(call, replies, last.reply);
      }
    }
  }

  lemma RunsNothing(call: Call)
    ensures RunCall(call, []) == call
  {
  }

  /** The provider memory, `RECOVERY`. */
  class Recovery {
    var known: Memory

    constructor ()
      ensures known == map[]
    {
      known := map[];
    }

    method Remember(key: ProviderKey, binding: Binding)
      modifies this
      ensures known == old(known)[key := binding]
    {
      known := known[key := binding];
    }

    method Forget(key: ProviderKey)
      modifies this
      ensures known == old(known) - {key}
    {
      known := known - {key};
    }

    /**
     Sends a request until it is answered or given up on. `replies` is what the provider would say to
     each request in turn; five are always enough. Answers with the forms sent, whether it
     succeeded, the retries it took and the form it ended on.
     */
    method StreamMessage(key: ProviderKey, thinking: bool, replies: seq<Reply>)
      returns (sent: seq<Binding>, succeeded: bool, attempt: nat, binding: Binding)
      requires |replies| >= 5
      modifies this
      ensures var end := RunCall(Begun(old(known), key, thinking), replies);
              && CallKeeps(end) && |sent| <= 5 && sent == Forms(end.log)
              && end.status == (if succeeded then Succeeded else GaveUp)
              && attempt == end.attempt && binding == end.binding
      ensures known == RunMemory(old(known), Begun(old(known), key, thinking), replies)
    {
      hide CallKeeps;
      hide RunCall;
      hide RunMemory;
      hide Forms;
      ghost var start, known0 := Begun(known, key, thinking), known;
      ghost var call := start;
      BegunKeeps(known, key, thinking);
      attempt := 0;
      binding := BindingFor(known, key, thinking);
      var tried := [binding];
      sent, succeeded := [], false;
      var sending := true;
      assert replies[0..] == replies;
      assert Forms([]) == [];
      while sending
        invariant CallKeeps(call)
                  && call.status == (if sending then Sending else if succeeded then Succeeded else GaveUp)
        invariant call.key == key && call.thinking == thinking
        invariant attempt == call.attempt && binding == call.binding && tried == call.tried
        invariant sending ==> !succeeded
        invariant sent == Forms(call.log) && |sent| <= 5
        invariant RunCall(call, replies[|sent|..]) == RunCall(start, replies)
        invariant RunMemory(known, call, replies[|sent|..]) == RunMemory(known0, start, replies)
        decreases 5 - |sent|, sending
      {
        SendingHasRoom(call);
        var reply := replies[|sent|];
        ReplyKeeps(call, reply);
        RunUnrolls(known, call, replies, |sent|);
        FormsGrow(call.log, Exchange(binding, reply));
        ghost var learned := Learned(known, call, reply);
        call := OnReply(call, reply);
        sent := sent + [binding];
        if reply.Failed? {
          sending := false;
        } else if IsSuccess(reply.status) {
          if binding == DropBlock {
            Remember(key, binding);
          }
          sending, succeeded := false, true;
        } else if IsTransientStatus(reply.status) && attempt < RETRIES {
          attempt := attempt + 1;
        } else {
          var next := if reply.status == 400 then NextBinding(binding, tried, thinking, reply) else None;
          if next.Some? {
            if binding == DropBlock {
              Forget(key);
            }
            tried := tried + [next.value];
            binding := next.value;
          } else {
            sending := false;
          }
        }
        assert known == learned;
      }
      RunEnds(known, call, replies[|sent|..]);
    }
  }

  function Forms(log: seq<Exchange>): (forms: seq<Binding>)
    ensures |forms| == |log|
  {
    seq(|log|, k requires 0 <= k < |log| => log[k].form)
  }

  lemma FormsGrow(log: seq<Exchange>, e: Exchange)
    ensures Forms(log + [e]) == Forms(log) + [e.form]
  {
  }

  lemma RunUnrolls(known: Memory, call: Call, replies: seq<Reply>, i: nat)
    requires i < |replies| && call.status.Sending?
    ensures RunCall(call, replies[i..]) == RunCall(OnReply(call, replies[i]), replies[i + 1..])
    ensures RunMemory(known, call, replies[i..])
         == RunMemory(Learned(known, call, replies[i]), OnReply(call, replies[i]), replies[i + 1..])
  {
    assert replies[i..][1..] == replies[i + 1..];
  }

  lemma RunEnds(known: Memory, call: Call, replies: seq<Reply>)
    requires !call.status.Sending?
    ensures RunCall(call, replies) == call && RunMemory(known, call, replies) == known
  {
  }

  /** A call still sending has used at most four requests. */
  lemma SendingHasRoom(call: Call)
    requires CallKeeps(call) && call.status.Sending?
    ensures |call.log| <= 4
  {
    if |call.tried| > 3 { FourRepeat(call.tried); }
  }
}
