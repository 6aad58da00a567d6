/** The tools by their names: what the loop decides by comparing a tool's name, stated
    without the rows of the tool table. */
module RecordNames {
  import opened Text
  import opened ToolContract
  import opened AssistantLoop

  /** The offered tools are rows of the table. */
  ghost predicate FromTable(offer: Offer) {
    forall n :: n in offer ==> Defined(n) == Some(offer[n])
  }

  lemma TableOfferValid(offer: Offer)
    requires FromTable(offer)
    ensures ValidOffer(offer)
  {
    forall n | n in offer ensures offer[n].name == n && RowShape(offer[n]) { TableShape(n); }
  }

  // ---------------------------------------------------------------- the table, by name

  predicate TakesRecord(name: string) {
    name in ["customer_activity", "customer_record", "conversation_history", "transaction_record",
             "transaction_customer_details", "lead_evidence"]
  }

  predicate TakesSearch(name: string) { name in ["find_customers", "published_policies", "published_knowledge"] }

  predicate TakesNothing(name: string) {
    name in ["platform_guide", "dashboard_overview", "list_conversations", "list_leads", "list_transactions",
             "list_catalogs", "list_channels", "subscription"]
  }

  /** The kind of record a tool reads, by its name. */
  function RecordKind(name: string): Option<Kind> {
    if name == "customer_activity" || name == "customer_record" then Some(Customer)
    else if name == "conversation_history" then Some(Conversation)
    else if name == "transaction_record" || name == "transaction_customer_details" then Some(Transaction)
    else if name == "lead_evidence" then Some(Lead)
    else None
  }

  /** Seventeen tools, each with at most one parameter; the two published readers want a
      text that is not blank. */
  lemma TableLaw(name: string)
    ensures Defined(name).Some? <==> TakesRecord(name) || TakesSearch(name) || TakesNothing(name)
    ensures Defined(name).Some? ==> RowByName(name, Defined(name).value)
  {
    if Defined(name).Some? {
      ParameterLaw(name);
      KindLaw(name);
    } else {
      NoRowLaw(name);
    }
  }

  predicate RowByName(name: string, t: Tool) {
    && (t.takes.RecordId? <==> TakesRecord(name)) && (t.takes.SearchText? <==> TakesSearch(name))
    && (t.needsText <==> name == "published_policies" || name == "published_knowledge")
    && t.kind == RecordKind(name)
  }

  lemma ParameterLaw(name: string)
    requires Defined(name).Some?
    ensures var t := Defined(name).value;
      (t.takes.RecordId? <==> TakesRecord(name)) && (t.takes.SearchText? <==> TakesSearch(name)) && (t.takes.Nothing? <==> TakesNothing(name))
  {
  }

  lemma KindLaw(name: string)
    requires Defined(name).Some?
    ensures Defined(name).value.needsText <==> name == "published_policies" || name == "published_knowledge"
    ensures Defined(name).value.kind == RecordKind(name)
  {
  }

  lemma NoRowLaw(name: string)
    requires Defined(name).None?
    ensures !TakesRecord(name) && !TakesSearch(name) && !TakesNothing(name)
  {
  }

  // ---------------------------------------------------------------- arguments, by name

  /** The arguments a tool of this name accepts: none at all, or its one parameter, as a text
      or null, the last of them within the limits, and not blank for the published readers. */
  ghost predicate Accepts(name: string, ms: seq<Member>) {
    if TakesNothing(name) then ms == []
    else
      && ms != [] && OneKey(if TakesRecord(name) then "record_id" else "search", ms)
      && (ms[|ms| - 1].value.Str? ==>
            var text := ms[|ms| - 1].value.text;
            ByteLen(text) <= (if TakesRecord(name) then 128 else 80) && '\n' !in text && '\r' !in text)
      && (name == "published_policies" || name == "published_knowledge" ==>
            exists i :: 0 <= i < |ms| && ms[i].value.Str? && OnlyNulls(ms, i + 1) && Trim(ms[i].value.text) != "")
  }

  lemma ArgumentLaw(name: string, raw: RawArgs)
    requires Defined(name).Some?
    ensures ArgsAccepted(Defined(name).value, raw) <==> raw.Object? && Accepts(name, raw.members)
  {
    TableLaw(name);
    NamesApart(name);
    if raw.Object? {
      TakesIs(name, Defined(name).value);
      AcceptsIs(Defined(name).value, raw);
      assert Accepts(name, raw.members) <==> Admits(Defined(name).value, raw.members);
    }
  }

  lemma NamesApart(name: string)
    ensures !(TakesRecord(name) && TakesSearch(name)) && !(TakesRecord(name) && TakesNothing(name)) && !(TakesSearch(name) && TakesNothing(name))
  {
  }

  lemma TakesIs(name: string, t: Tool)
    requires RowByName(name, t) && (TakesRecord(name) || TakesSearch(name) || TakesNothing(name))
    requires !(TakesRecord(name) && TakesSearch(name)) && !(TakesRecord(name) && TakesNothing(name)) && !(TakesSearch(name) && TakesNothing(name))
    ensures t.takes.Nothing? == TakesNothing(name) && t.takes.RecordId? == TakesRecord(name)
  {
  }

  /** The same for a row of the table. */
  ghost predicate Admits(tool: Tool, ms: seq<Member>) {
    if tool.takes.Nothing? then ms == []
    else
      && ms != [] && OneKey(if tool.takes.RecordId? then "record_id" else "search", ms)
      && (ms[|ms| - 1].value.Str? ==>
            var text := ms[|ms| - 1].value.text;
            ByteLen(text) <= (if tool.takes.RecordId? then 128 else 80) && '\n' !in text && '\r' !in text)
      && (tool.needsText ==> exists i :: 0 <= i < |ms| && ms[i].value.Str? && OnlyNulls(ms, i + 1) && Trim(ms[i].value.text) != "")
  }

  predicate OneKey(key: string, ms: seq<Member>) { forall i :: 0 <= i < |ms| ==> ms[i].key == key && !ms[i].value.NotText? }

  lemma MembersOk(tool: Tool, ms: seq<Member>)
    ensures (forall i :: 0 <= i < |ms| ==> MemberOk(tool.takes, ms[i]))
       <==> if tool.takes.Nothing? then ms == [] else OneKey(if tool.takes.RecordId? then "record_id" else "search", ms)
  {
    if tool.takes.Nothing? && ms != [] { assert !MemberOk(tool.takes, ms[0]); }
  }

  lemma AcceptsIs(tool: Tool, raw: RawArgs)
    requires raw.Object? && (tool.takes.Nothing? ==> !tool.needsText) && (tool.needsText ==> tool.takes.SearchText?)
    ensures ArgsAccepted(tool, raw) <==> Admits(tool, raw.members)
  {
    var ms, key := raw.members, if tool.takes.RecordId? then "record_id" else "search";
    MembersOk(tool, ms);
    if ms == [] {
      assert LastValue(ms, "search") == "" && LastValue(ms, "record_id") == "";
    } else if !tool.takes.Nothing? && OneKey(key, ms) {
      assert ms[0].key == key && Present(ms, key);
      AbsentValue(ms, if tool.takes.RecordId? then "search" else "record_id");
      LastTextIs(ms, key);
    }
  }

  /** The text a field keeps is the last one, which only nulls follow. */
  lemma LastTextIs(ms: seq<Member>, key: string)
    requires ms != [] && OneKey(key, ms)
    ensures Trim(LastText(ms, key)) != "" <==> exists i :: 0 <= i < |ms| && ms[i].value.Str? && OnlyNulls(ms, i + 1) && Trim(ms[i].value.text) != ""
    ensures LastValue(ms, key) == if ms[|ms| - 1].value.Str? then ms[|ms| - 1].value.text else ""
  {
    var last := LastTextAt(ms, key);
    assert forall i :: 0 <= i < last && ms[i].value.Str? ==> !OnlyNulls(ms, i + 1);
  }

  lemma {:induction false} AbsentValue(ms: seq<Member>, key: string)
    requires forall i :: 0 <= i < |ms| ==> ms[i].key != key
    ensures LastValue(ms, key) == ""
  {
    if ms != [] { AbsentValue(ms[..|ms| - 1], key); }
  }

  // ---------------------------------------------------------------- what a read names

  ghost predicate HasId(rows: seq<Row>, id: string) { exists i :: 0 <= i < |rows| && rows[i].id == Some(id) }

  ghost predicate HasCustomer(rows: seq<Row>, id: string) { exists i :: 0 <= i < |rows| && rows[i].customerId == Some(id) }

  /** The rows of a read by the tool of this name give this ID as a record of this kind:
      customer_activity by its two blocks, the listings by their sample. */
  ghost predicate NamedBy(name: string, rows: Rows, kind: Kind, id: string) {
    match kind
    case Conversation =>
      || (name == "customer_activity" && rows.Activity? && HasId(rows.conversations, id))
      || (name == "list_conversations" && rows.Sample? && id != "" && HasId(rows.rows, id))
    case Transaction =>
      || (name == "customer_activity" && rows.Activity? && HasId(rows.transactions, id))
      || (name == "list_transactions" && rows.Sample? && id != "" && HasId(rows.rows, id))
    case Lead =>
      name == "list_leads" && rows.Sample? && id != "" && HasId(rows.rows, id)
    case Customer =>
      && rows.Sample? && id != ""
      && (|| (name == "find_customers" && HasId(rows.rows, id))
          || (name in ["list_conversations", "list_leads", "list_transactions"] && HasCustomer(rows.rows, id)))
  }

  lemma IdsHas(rows: seq<Row>, id: string)
    ensures id in Ids(rows) <==> HasId(rows, id)
    ensures id in CustomerIds(rows) <==> HasCustomer(rows, id)
  {
  }

  /** What the loop looks up in a tool's row when it remembers IDs, by name. */
  lemma FindsByName(name: string)
    requires Defined(name).Some?
    ensures Defined(name).value.finds == Lists(name)
    ensures Defined(name).value.source.CustomerActivity? <==> name == "customer_activity"
  {
  }

  lemma LinksCustomersByName(name: string)
    requires Defined(name).Some?
    ensures Defined(name).value.linksCustomers <==> name in ["list_conversations", "list_leads", "list_transactions"]
  {
  }

  /** The kind of record a listing lists. */
  function Lists(name: string): Option<Kind> {
    if name == "find_customers" then Some(Customer)
    else if name == "list_conversations" then Some(Conversation)
    else if name == "list_leads" then Some(Lead)
    else if name == "list_transactions" then Some(Transaction)
    else None
  }

  /** What becomes known from a read is what its rows name. */
  lemma DiscoveredIsNamed(name: string, rows: Rows, kind: Kind, id: string)
    requires Defined(name).Some?
    ensures id in Discovered(Defined(name).value, rows, kind) <==> NamedBy(name, rows, kind, id)
  {
    FindsByName(name);
    LinksCustomersByName(name);
    match rows
    case Opaque =>
    case Sample(s) => IdsHas(s, id);
    case Activity(cs, ts) =>
      IdsHas(cs, id);
      IdsHas(ts, id);
  }

  // ---------------------------------------------------------------- coverage and links

  /** The label of a successful read: fixed for the published, record and lead readers, the
      reader's own otherwise. */
  function CoverageLabel(name: string, reported: string): string {
    if name == "published_policies" || name == "published_knowledge" then "published_matches_only"
    else if name == "customer_record" || name == "transaction_record" then "single_record_verified"
    else if name == "lead_evidence" then "single_lead_verified"
    else reported
  }

  /** The links of a successful read: that of the conversation for its history, none for the
      other scoped readers, the reader's own for the discovery tools. */
  function LinksByName(req: Request, links: seq<string>): seq<string> {
    if req.name == "conversation_history" then ["/chat?conversation_id=" + req.args.recordId]
    else if req.name in ["published_policies", "published_knowledge", "customer_record", "transaction_record", "lead_evidence"] then []
    else links
  }

  lemma CoverageByName(name: string, reported: string)
    requires Defined(name).Some?
    ensures CoverageOf(Defined(name).value, reported) == CoverageLabel(name, reported)
  {
  }

  lemma LinksAreByName(req: Request, o: Outcome)
    requires Defined(req.name).Some? && o.Read?
    ensures ReadLinks(Defined(req.name).value, req, o) == LinksByName(req, o.links)
  {
  }
}
