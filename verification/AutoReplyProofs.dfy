/** What every turn of the automatic reply keeps. */
module AutoReplyProofs {
  import opened Text
  import L = RunLifecycle
  import V = ValidationPipeline
  import opened ReplyMedia
  import opened AutoReply

  // ---------------------------------------------------------------- the fan-out

  function OutboundAt(t: Turn, links: seq<Link>, i: nat): Outbound {
    Outbound(MessageKey(t, links, i), if i < |links| then Some(links[i].id) else None)
  }

  function OutboundRows(t: Turn, links: seq<Link>, n: nat): seq<Outbound> {
    if n == 0 then [] else OutboundRows(t, links, n - 1) + [OutboundAt(t, links, n - 1)]
  }

  function Keys(t: Turn, links: seq<Link>, n: nat): seq<string> {
    if n == 0 then [] else Keys(t, links, n - 1) + [MessageKey(t, links, n - 1)]
  }

  function Entries(t: Turn, links: seq<Link>, n: nat): seq<Entry> {
    if n == 0 then [] else Entries(t, links, n - 1) + [Entry(MessageKey(t, links, n - 1), t.now + 3 * (n - 1))]
  }

  /** The store with n messages of this turn added, and nothing else changed. */
  function WithMessages(t: Turn, s: Store, links: seq<Link>, n: nat): Store {
    s.(outbound := s.outbound + OutboundRows(t, links, n),
       messages := s.messages + if t.messagesWired then Keys(t, links, n) else [],
       outbox := s.outbox + Entries(t, links, n))
  }

  lemma {:induction false} SendAddsMessages(t: Turn, s: Store, links: seq<Link>, n: nat)
    ensures Send(t, s, links, n).Some? ==> Send(t, s, links, n).value == WithMessages(t, s, links, n)
  {
    if n > 0 {
      SendAddsMessages(t, s, links, n - 1);
      assert s.outbound + OutboundRows(t, links, n) == s.outbound + OutboundRows(t, links, n - 1) + [OutboundAt(t, links, n - 1)];
      assert s.outbox + Entries(t, links, n) == s.outbox + Entries(t, links, n - 1) + [Entry(MessageKey(t, links, n - 1), t.now + 3 * (n - 1))];
      assert s.messages + Keys(t, links, n) == s.messages + Keys(t, links, n - 1) + [MessageKey(t, links, n - 1)];
    } else {
      assert WithMessages(t, s, links, 0) == s;
    }
  }

  lemma {:induction false} RowsAt(t: Turn, links: seq<Link>, n: nat)
    ensures |OutboundRows(t, links, n)| == |Keys(t, links, n)| == |Entries(t, links, n)| == n
    ensures forall i :: 0 <= i < n ==>
      && OutboundRows(t, links, n)[i] == OutboundAt(t, links, i) && Keys(t, links, n)[i] == MessageKey(t, links, i)
      && Entries(t, links, n)[i] == Entry(MessageKey(t, links, i), t.now + 3 * i)
  {
    if n > 0 { RowsAt(t, links, n - 1); }
  }

  /** The idempotency key of message i: that of the reply, or of a further photo. */
  function KeyIn(ref: string, images: seq<Link>, i: nat): string {
    if 0 < i < |images| then "auto-reply:" + ref + ":photo:" + Decimal(i) + ":" + images[i].id else "auto-reply:" + ref
  }

  lemma KeyIs(t: Turn, links: seq<Link>, i: nat)
    ensures MessageKey(t, links, i) == KeyIn(t.ref, links, i)
  {
  }

  /** The keys of one turn differ: the photo number tells them apart. */
  lemma KeysDiffer(t: Turn, links: seq<Link>, i: nat, j: nat)
    requires i < j < |links| <= 4
    ensures MessageKey(t, links, i) != MessageKey(t, links, j)
  {
    var base := ReplyKey(t) + ":photo:";
    var kj := base + Decimal(j) + ":" + links[j].id;
    assert kj[|base|] == Decimal(j)[0];
    if i == 0 {
      assert |MessageKey(t, links, i)| < |kj|;
    } else {
      var ki := base + Decimal(i) + ":" + links[i].id;
      assert ki[|base|] == Decimal(i)[0];
    }
  }

  lemma {:induction false} ApprovedShort(t: Turn, links: seq<Link>)
    ensures |Approved(t, links)| <= |links|
  {
    if links != [] { ApprovedShort(t, links[..|links| - 1]); }
  }

  /** Between one and four messages, with equal numbers of outbound rows, outbox entries and,
      when wired, message rows; distinct keys; strictly increasing availability. */
  lemma FanOutTheorem(t: Turn, links: seq<Link>)
    requires |links| <= 4
    ensures var n := MessageCount(links);
      var es := Entries(t, links, n);
      && 1 <= n <= 4 && |OutboundRows(t, links, n)| == |es| == |Keys(t, links, n)| == n
      && (forall i :: 0 <= i < n ==> es[i].key == OutboundRows(t, links, n)[i].key == Keys(t, links, n)[i])
      && (forall i, j :: 0 <= i < j < n ==> es[i].key != es[j].key && es[i].availableAt < es[j].availableAt)
  {
    var n := MessageCount(links);
    RowsAt(t, links, n);
    forall i, j | 0 <= i < j < n ensures MessageKey(t, links, i) != MessageKey(t, links, j) {
      KeysDiffer(t, links, i, j);
    }
  }

  // ---------------------------------------------------------------- a turn and its messages

  predicate SameMessages(a: Store, b: Store) { a.outbound == b.outbound && a.messages == b.messages && a.outbox == b.outbox }

  /** The run went from VALIDATING through AUTHORIZED to EXECUTING. */
  ghost predicate WasExecuting(before: Store, after: Store, id: string) {
    && id in before.runs && id in after.runs && before.runs[id].status == L.Validating
    && (after.runs[id].status.Executing? || after.runs[id].status.Completed?)
    && L.Authorized in after.runs[id].stamps && L.Executing in after.runs[id].stamps
  }

  lemma EnterMeans(t: Turn, s: Store, id: string)
    ensures var r := EnterExecution(t, s, id);
      r.Some? ==> SameMessages(s, r.value) && (t.runsWired ==> WasExecuting(s, r.value, id) && r.value.runs[id].status == L.Executing)
  {
  }

  /** The store holds the messages of this turn, with these images, behind those it had. */
  predicate Replied(t: Turn, links: seq<Link>, before: Store, after: Store) {
    SameMessages(WithMessages(t, before, links, MessageCount(links)), after)
  }

  lemma RepliedFrom(t: Turn, links: seq<Link>, s: Store, mid: Store, after: Store)
    requires SameMessages(s, mid) && Replied(t, links, mid, after)
    ensures Replied(t, links, s, after)
  {
  }

  lemma ReplyMeans(t: Turn, s: Store, d: V.Decision, def: V.Definition, links: seq<Link>)
    ensures var tx := Reply(t, s, d, def, links);
      tx.Commit? ==> tx.store.runs == s.runs && if tx.enqueued then Replied(t, Approved(t, links), s, tx.store) else SameMessages(s, tx.store)
  {
    var a := Approved(t, links);
    SendAddsMessages(t, s, a, MessageCount(a));
  }

  /** What a transaction that began with `s` may have done. */
  ghost predicate TxFaithful(t: Turn, s: Store, id: string, e: V.Effective, links: seq<Link>, tx: Tx) {
    tx.Commit? ==>
      if !tx.enqueued then SameMessages(s, tx.store)
      else e.verdict.Allowed? && Replied(t, links, s, tx.store) && (t.runsWired ==> WasExecuting(s, tx.store, id))
  }

  /** A transaction enqueues only what is allowed, behind AUTHORIZED and EXECUTING. */
  lemma TransactMeans(t: Turn, s: Store, id: string, d: V.Decision, e: V.Effective, links: seq<Link>)
    requires !e.verdict.Unsupported?
    ensures TxFaithful(t, s, id, e, Approved(t, links), Transact(t, s, id, d, e, links))
  {
    EnterMeans(t, s, id);
    var entered, def, tx := EnterExecution(t, s, id), V.DefinitionOf(e.capability), Transact(t, s, id, d, e, links);
    if entered.Some? && def.Some? && tx == Reply(t, entered.value, d, def.value, links) && e.verdict.Allowed? {
      ReplyMeans(t, entered.value, d, def.value, links);
      if tx.Commit? && tx.enqueued { RepliedFrom(t, Approved(t, links), s, entered.value, tx.store); }
    }
  }

  /** `mid` is the store when the transaction began. */
  ghost predicate Faithful(t: Turn, links: seq<Link>, mid: Store, after: Store, id: string, r: Result) {
    if !r.enqueued then SameMessages(mid, after)
    else r.exit.Committed? && Replied(t, links, mid, after) && (t.runsWired ==> WasExecuting(mid, after, id))
  }

  lemma CompletedStays(t: Turn, s: Store, mid: Store, id: string)
    requires t.runsWired ==> WasExecuting(s, mid, id)
    ensures t.runsWired ==> WasExecuting(s, MarkSafe(t, mid, id, L.Completed), id)
  {
  }

  lemma SettleMeans(t: Turn, s: Store, id: string, e: V.Effective, links: seq<Link>, tx: Tx)
    requires TxFaithful(t, s, id, e, links, tx)
    ensures Faithful(t, links, s, Settle(t, s, id, tx).0, id, Settle(t, s, id, tx).1)
    ensures Settle(t, s, id, tx).1.enqueued ==> e.verdict.Allowed?
  {
    if tx.Commit? && tx.enqueued { CompletedStays(t, s, tx.store, id); }
  }

  /** The images that go out with a decision. */
  function Images(t: Turn, d: V.Decision, e: V.Effective): seq<Link> { Approved(t, Candidates(t, d, e)) }

  lemma FinishMeans(t: Turn, s: Store, id: string, d: V.Decision, e: V.Effective)
    requires !e.verdict.Unsupported?
    ensures Faithful(t, Images(t, d, e), s, Finish(t, s, id, d, e).0, id, Finish(t, s, id, d, e).1)
    ensures Finish(t, s, id, d, e).1.enqueued ==> e.verdict.Allowed?
  {
    TransactMeans(t, s, id, d, e, Candidates(t, d, e));
    SettleMeans(t, s, id, e, Images(t, d, e), Transact(t, s, id, d, e, Candidates(t, d, e)));
  }

  /** The answer of the whole pipeline is a pass with the policy's consent. */
  predicate Consented(c: Option<V.Checked>) {
    c.Some? && c.value.Passed? && c.value.effective.verdict.Allowed?
  }

  /** The images of the decision the pipeline passed. */
  function ImagesOf(t: Turn, d: V.Decision, c: Option<V.Checked>): seq<Link> {
    if c.Some? && c.value.Passed? then Images(t, d, c.value.effective) else []
  }

  /** The run is recorded as authorized and then executed. */
  predicate Executed(s: Store, id: string) {
    && id in s.runs && (s.runs[id].status.Executing? || s.runs[id].status.Completed?)
    && L.Authorized in s.runs[id].stamps && L.Executing in s.runs[id].stamps
  }

  /** A turn either adds its reply messages, with everything that must precede them, or no
      message row at all. */
  ghost predicate AllOrNothing(t: Turn, d: V.Decision, before: Store, after: Store, id: string, c: Option<V.Checked>, r: Result) {
    if !r.enqueued then SameMessages(before, after)
    else
      r.exit.Committed? && Consented(c) && Replied(t, ImagesOf(t, d, c), before, after) && (t.runsWired ==> Executed(after, id))
  }

  lemma Lift(t: Turn, d: V.Decision, s: Store, mid: Store, after: Store, id: string, c: Option<V.Checked>, r: Result)
    requires SameMessages(s, mid) && Faithful(t, ImagesOf(t, d, c), mid, after, id, r) && (r.enqueued ==> Consented(c))
    ensures AllOrNothing(t, d, s, after, id, c, r)
  {
    if r.enqueued { RepliedFrom(t, ImagesOf(t, d, c), s, mid, after); }
  }

  lemma LiftAgain(t: Turn, d: V.Decision, s: Store, mid: Store, after: Store, id: string, c: Option<V.Checked>, r: Result)
    requires SameMessages(s, mid) && AllOrNothing(t, d, mid, after, id, c, r)
    ensures AllOrNothing(t, d, s, after, id, c, r)
  {
    if r.enqueued { RepliedFrom(t, ImagesOf(t, d, c), s, mid, after); }
  }

  /** The pipeline answers within its closed set of verdicts. */
  predicate Closed(c: Option<V.Checked>) { c.Some? && c.value.Passed? ==> !c.value.effective.verdict.Unsupported? }

  lemma JudgeMeans(t: Turn, s: Store, id: string, d: V.Decision, c: Option<V.Checked>)
    requires Closed(c)
    ensures AllOrNothing(t, d, s, Judge(t, s, id, d, c).0, id, c, Judge(t, s, id, d, c).1)
  {
    var v := TransitionRun(t, s, id, L.Validating);
    var (s', r) := Judge(t, s, id, d, c);
    if v.Some? && c.Some? && c.value.Passed? && (s', r) == Finish(t, v.value, id, d, c.value.effective) {
      FinishMeans(t, v.value, id, d, c.value.effective);
      Lift(t, d, s, v.value, s', id, c, r);
    }
  }

  lemma CheckingClosed(t: Turn, d: V.Decision)
    ensures Closed(Checking(t, d))
  {
    if t.pipeline.Some? { V.FailClosed(t.pipeline.value, InputOf(t, d), t.now); }
  }

  /** The pipeline's answer in this turn. */
  ghost function Answer(t: Turn): Option<V.Checked> {
    if Proposal(t).None? then None else Checking(t, Proposal(t).value)
  }

  /** The decision to be executed in this turn; without one nothing is. */
  function DecisionOf(t: Turn): V.Decision {
    if Proposal(t).Some? then Proposal(t).value else V.Decision(V.Unregistered, "", [], None)
  }

  lemma RunMeans(t: Turn, s: Store, id: string)
    ensures AllOrNothing(t, DecisionOf(t), s, Run(t, s, id).0, id, Answer(t), Run(t, s, id).1)
  {
    var (s', r) := Run(t, s, id);
    if Proposal(t).Some? {
      var m := MarkSafe(t, MarkSafe(t, s, id, L.ContextBuilt), id, L.Running);
      var d := Proposal(t).value;
      CheckingClosed(t, d);
      if (s', r) == Judge(t, m, id, d, Answer(t)) {
        JudgeMeans(t, m, id, d, Answer(t));
        LiftAgain(t, d, s, m, s', id, Answer(t), r);
      }
    }
  }

  /** In every turn, reply messages are added only if the whole pipeline allowed them, the
      transaction committed and, with runs recorded, the run went through AUTHORIZED and
      EXECUTING; they carry the images approved for the decision. A failing step leaves none
      of them. */
  lemma ReplyTheorem(t: Turn, s: Store)
    ensures AllOrNothing(t, DecisionOf(t), s, Handled(t, s).0, RunIdOf(t, s), Answer(t), Handled(t, s).1)
  {
    var (b, id) := Begin(t, s);
    var (s', r) := Handled(t, s);
    if id.Some? && (s', r) == Run(t, b, id.value) {
      RunMeans(t, b, id.value);
      LiftAgain(t, DecisionOf(t), s, b, s', id.value, Answer(t), r);
    }
  }

  /** The run a turn starts or resumes. */
  function RunIdOf(t: Turn, s: Store): string {
    if Begin(t, s).1.Some? then Begin(t, s).1.value else ""
  }

  // ---------------------------------------------------------------- the images

  /** The link names the same image of the same item and variant. */
  predicate SameImage(a: Link, b: Link) { a.mediaId == b.mediaId && a.itemId == b.itemId && a.variantId == b.variantId }

  lemma {:induction false} ApprovedAmong(t: Turn, links: seq<Link>, l: Link)
    requires l in Approved(t, links)
    ensures exists c :: c in links && SameImage(l, c) && t.freshLink(c.id) == Some(l)
  {
    var init, last := links[..|links| - 1], links[|links| - 1];
    if l in Approved(t, init) {
      ApprovedAmong(t, init, l);
      var c :| c in init && SameImage(l, c) && t.freshLink(c.id) == Some(l);
      assert c in links;
    } else {
      assert last in links && SameImage(l, last);
    }
  }

  /** The link is still approved for the same image of the same item and variant. */
  predicate StillApproved(t: Turn, l: Link) {
    t.media.Some? && t.freshLink(l.id).Some? && SameImage(t.freshLink(l.id).value, l)
  }

  /** The images that go out are, in order, the fresh links of exactly the candidates that are
      still approved; `at` says which. */
  lemma {:induction false} ApprovedAre(t: Turn, links: seq<Link>) returns (at: seq<nat>)
    ensures |at| == |Approved(t, links)| && forall k :: 0 <= k < |at| ==> at[k] < |links|
    ensures forall k :: 0 <= k < |at| ==> StillApproved(t, links[at[k]]) && t.freshLink(links[at[k]].id) == Some(Approved(t, links)[k])
    ensures forall j, k :: 0 <= j < k < |at| ==> at[j] < at[k]
    ensures forall i :: 0 <= i < |links| && StillApproved(t, links[i]) ==> i in at
  {
    if links == [] {
      at := [];
    } else {
      at := ApprovedAre(t, links[..|links| - 1]);
      if StillApproved(t, links[|links| - 1]) { at := at + [|links| - 1]; }
    }
  }

  /** Every image that goes out is one the model chose, approved at the choice and again inside
      the transaction, from the gallery of a selected item and variant; there are at most four. */
  lemma ImagesTheorem(t: Turn, d: V.Decision, e: V.Effective)
    ensures |Images(t, d, e)| <= 4
    ensures forall l :: l in Images(t, d, e) ==>
      t.media.Some? && exists c :: Admissible(t.media.value, d.selected, c) && SameImage(l, c) && t.freshLink(c.id) == Some(l)
  {
    var links := Candidates(t, d, e);
    SelectedTheorem(t.media, d);
    ApprovedShort(t, links);
    forall l | l in Images(t, d, e)
      ensures t.media.Some? && exists c :: Admissible(t.media.value, d.selected, c) && SameImage(l, c) && t.freshLink(c.id) == Some(l)
    {
      ApprovedAmong(t, links, l);
      var c :| c in links && SameImage(l, c) && t.freshLink(c.id) == Some(l);
      assert Admissible(t.media.value, d.selected, c);
    }
  }

  // ---------------------------------------------------------------- one statement for every turn

  /** The rows of one reply: as many outbox entries as outbound rows and, when wired, message
      rows; the first with the reply's key and the first image, the others with the key and
      the image of a further photo, available three seconds apart; all keys differ. */
  ghost predicate OneReply(t: Turn, images: seq<Link>, outbound: seq<Outbound>, messages: seq<string>, outbox: seq<Entry>) {
    && |images| <= 4 && |outbox| == (if images == [] then 1 else |images|)
    && |outbound| == |outbox| && |messages| == (if t.messagesWired then |outbox| else 0)
    && (forall i :: 0 <= i < |outbox| ==> outbox[i] == Entry(KeyIn(t.ref, images, i), t.now + 3 * i))
    && (forall i :: 0 <= i < |outbox| ==> outbound[i] == Outbound(outbox[i].key, if images == [] then None else Some(images[i].id)))
    && (t.messagesWired ==> forall i :: 0 <= i < |outbox| ==> messages[i] == outbox[i].key)
    && (forall i, j :: 0 <= i < j < |outbox| ==> outbox[i].key != outbox[j].key && outbox[i].availableAt < outbox[j].availableAt)
  }

  lemma RepliedIsOneReply(t: Turn, links: seq<Link>)
    requires |links| <= 4
    ensures var n := MessageCount(links);
      OneReply(t, links, OutboundRows(t, links, n), if t.messagesWired then Keys(t, links, n) else [], Entries(t, links, n))
  {
    FanOutTheorem(t, links);
    var n := MessageCount(links);
    RowsAt(t, links, n);
    forall i | 0 <= i < n ensures MessageKey(t, links, i) == KeyIn(t.ref, links, i) { KeyIs(t, links, i); }
  }

  /** Every turn adds the rows of one reply behind those there were, with the images of the
      decision that passed, and says so, or it adds no row. */
  lemma TurnTheorem(t: Turn, s: Store) returns (outbound: seq<Outbound>, messages: seq<string>, outbox: seq<Entry>)
    ensures var (s', r) := Handled(t, s);
      && s'.outbound == s.outbound + outbound && s'.messages == s.messages + messages && s'.outbox == s.outbox + outbox
      && (if r.enqueued then Consented(Answer(t)) && OneReply(t, ImagesOf(t, DecisionOf(t), Answer(t)), outbound, messages, outbox)
          else outbound == [] && messages == [] && outbox == [])
  {
    ReplyTheorem(t, s);
    var (s', r) := Handled(t, s);
    if r.enqueued {
      var links := ImagesOf(t, DecisionOf(t), Answer(t));
      var n := MessageCount(links);
      if Answer(t).Some? && Answer(t).value.Passed? { ImagesTheorem(t, DecisionOf(t), Answer(t).value.effective); }
      RepliedIsOneReply(t, links);
      outbound, outbox := OutboundRows(t, links, n), Entries(t, links, n);
      messages := if t.messagesWired then Keys(t, links, n) else [];
    } else {
      outbound, messages, outbox := [], [], [];
    }
  }
}
