/** The read tools offered to the merchant assistant's model, and the check of a requested
    call's arguments. */
module ToolContract {
  import opened Text

  datatype Kind = Customer | Conversation | Transaction | Lead

  /** The one parameter a tool's schema declares, if any; it is also required. */
  datatype Takes = Nothing | SearchText | RecordId

  /** The reader behind a tool; three of them get a coverage label fixed by the loop. */
  datatype Source = PublishedReader | HistoryReader | RecordReader | LeadReader | Discovery | CustomerActivity

  /** One row of the tool table, with what the loop knows about the tool by name: the kind
      its record_id must be verified for, and the kind its sample rows reveal. */
  datatype Tool = Tool(
    name: string,
    takes: Takes,
    needsText: bool,
    kind: Option<Kind>,
    finds: Option<Kind>,
    linksCustomers: bool,
    source: Source)

  function Plain(name: string): Tool {
    Tool(name, Nothing, false, None, None, false, Discovery)
  }

  function ByRecord(name: string, kind: Kind, source: Source): Tool {
    Tool(name, RecordId, false, Some(kind), None, false, source)
  }

  function Published(name: string): Tool {
    Tool(name, SearchText, true, None, None, false, PublishedReader)
  }

  /** The table of tool definitions, by name: discovery tools, then the scoped readers. */
  function Defined(name: string): Option<Tool> {
    if DiscoveryTool(name).Some? then DiscoveryTool(name) else ScopedReader(name)
  }

  function DiscoveryTool(name: string): Option<Tool> {
    match name
    case "platform_guide" => Some(Plain(name))
    case "dashboard_overview" => Some(Plain(name))
    case "find_customers" => Some(Tool(name, SearchText, false, None, Some(Customer), false, Discovery))
    case "customer_activity" => Some(ByRecord(name, Customer, CustomerActivity))
    case "list_conversations" => Some(Tool(name, Nothing, false, None, Some(Conversation), true, Discovery))
    case "list_leads" => Some(Tool(name, Nothing, false, None, Some(Lead), true, Discovery))
    case "list_transactions" => Some(Tool(name, Nothing, false, None, Some(Transaction), true, Discovery))
    case "transaction_customer_details" => Some(ByRecord(name, Transaction, Discovery))
    case "list_catalogs" => Some(Plain(name))
    case "list_channels" => Some(Plain(name))
    case "subscription" => Some(Plain(name))
    case _ => None
  }

  function ScopedReader(name: string): Option<Tool> {
    match name
    case "published_policies" => Some(Published(name))
    case "published_knowledge" => Some(Published(name))
    case "conversation_history" => Some(ByRecord(name, Conversation, HistoryReader))
    case "transaction_record" => Some(ByRecord(name, Transaction, RecordReader))
    case "customer_record" => Some(ByRecord(name, Customer, RecordReader))
    case "lead_evidence" => Some(ByRecord(name, Lead, LeadReader))
    case _ => None
  }

  /** The tools offered in one conversation, by name. */
  type Offer = map<string, Tool>

  predicate NoBar(s: string) { forall i :: 0 <= i < |s| ==> s[i] != '|' }

  predicate RowShape(t: Tool) {
    NoBar(t.name) && (t.kind.Some? ==> t.takes.RecordId?)
  }

  ghost predicate ValidOffer(offer: Offer) {
    forall n :: n in offer ==> offer[n].name == n && RowShape(offer[n])
  }

  /** toolDefinitions: the available names the table knows. */
  method OfferTools(available: seq<string>) returns (offer: Offer)
    ensures ValidOffer(offer)
    ensures forall n :: n in offer <==> n in available && Defined(n).Some?
    ensures forall n :: n in offer ==> offer[n] == Defined(n).value
  {
    offer := map[];
    for i := 0 to |available|
      invariant ValidOffer(offer)
      invariant forall n :: n in offer <==> n in available[..i] && Defined(n).Some?
      invariant forall n :: n in offer ==> offer[n] == Defined(n).value
    {
      var row := Defined(available[i]);
      if row.Some? {
        TableShape(available[i]);
        offer := offer[available[i] := row.value];
      }
    }
  }

  lemma TableShape(name: string)
    requires Defined(name).Some?
    ensures Defined(name).value.name == name && RowShape(Defined(name).value)
  {
    if DiscoveryTool(name).Some? { DiscoveryShape(name); } else { ReaderShape(name); }
  }

  lemma DiscoveryShape(name: string)
    requires DiscoveryTool(name).Some?
    ensures DiscoveryTool(name).value.name == name && RowShape(DiscoveryTool(name).value)
  {
    DiscoveryNamesNoBar();
  }

  lemma DiscoveryNamesNoBar()
    ensures NoBar("platform_guide") && NoBar("dashboard_overview") && NoBar("find_customers")
    ensures NoBar("customer_activity") && NoBar("list_conversations") && NoBar("list_leads")
    ensures NoBar("list_transactions") && NoBar("transaction_customer_details")
    ensures NoBar("list_catalogs") && NoBar("list_channels") && NoBar("subscription")
  {
  }

  lemma ReaderShape(name: string)
    requires ScopedReader(name).Some?
    ensures ScopedReader(name).value.name == name && RowShape(ScopedReader(name).value)
  {
    ReaderNamesNoBar();
  }

  lemma ReaderNamesNoBar()
    ensures NoBar("published_policies") && NoBar("published_knowledge") && NoBar("conversation_history")
    ensures NoBar("transaction_record") && NoBar("customer_record") && NoBar("lead_evidence")
  {
  }

  // ---------------------------------------------------------------- arguments of a call

  /** A member's value as far as decoding into a string cares. */
  datatype JsonText = Str(text: string) | Null | NotText

  /** Raw arguments: not one JSON object, or the object's members in textual order. */
  datatype RawArgs = NotAnObject | Object(members: seq<Member>)
  datatype Member = Member(key: string, value: JsonText)

  datatype Args = Args(search: string, recordId: string)

  predicate Allowed(takes: Takes, key: string) {
    (takes.SearchText? && key == "search") || (takes.RecordId? && key == "record_id")
  }

  /** The value a map keeps for a key: that of its last member, null reading as empty. */
  function LastValue(ms: seq<Member>, key: string): string {
    if ms == [] then ""
    else
      var m := ms[|ms| - 1];
      if m.key == key then (if m.value.Str? then m.value.text else "") else LastValue(ms[..|ms| - 1], key)
  }

  /** The value a struct field keeps: members are decoded in order and null changes nothing. */
  function LastText(ms: seq<Member>, key: string): string {
    if ms == [] then ""
    else
      var m := ms[|ms| - 1];
      if m.key == key && m.value.Str? then m.value.text else LastText(ms[..|ms| - 1], key)
  }

  predicate Present(ms: seq<Member>, key: string) {
    exists i :: 0 <= i < |ms| && ms[i].key == key
  }

  predicate WithinLimits(a: Args) {
    ByteLen(a.search) <= 80 && !ContainsLineBreak(a.search) && ByteLen(a.recordId) <= 128 && !ContainsLineBreak(a.recordId)
  }

  /** When decodeReadArgs accepts the arguments, and what it decodes. */
  ghost predicate ArgsAccepted(tool: Tool, raw: RawArgs) {
    && raw.Object?
    && (tool.takes.SearchText? ==> Present(raw.members, "search"))
    && (tool.takes.RecordId? ==> Present(raw.members, "record_id"))
    && (forall i :: 0 <= i < |raw.members| ==> MemberOk(tool.takes, raw.members[i]))
    && WithinLimits(Args(LastValue(raw.members, "search"), LastValue(raw.members, "record_id")))
    && (tool.needsText ==> Trim(LastText(raw.members, "search")) != "")
  }

  ghost function DecodedArgs(tool: Tool, raw: RawArgs): Option<Args> {
    if ArgsAccepted(tool, raw) then
      Some(Args(LastText(raw.members, "search"), LastText(raw.members, "record_id")))
    else None
  }

  method DecodeReadArgs(tool: Tool, raw: RawArgs) returns (r: Option<Args>)
    ensures r == DecodedArgs(tool, raw)
  {
    if raw.NotAnObject? { return None; }
    var ms := raw.members;
    var ok, args, hasSearch, hasRecord := CollectMembers(tool.takes, ms);
    if !ok || (tool.takes.SearchText? && !hasSearch) || (tool.takes.RecordId? && !hasRecord) {
      return None;
    }
    if ByteLen(args.search) > 80 || ContainsLineBreak(args.search)
       || ByteLen(args.recordId) > 128 || ContainsLineBreak(args.recordId) {
      return None;
    }
    args := DecodeFields(tool, ms, args);
    if tool.needsText && Trim(args.search) == "" {
      return None;
    }
    return Some(args);
  }

  predicate MemberOk(takes: Takes, m: Member) { Allowed(takes, m.key) && !m.value.NotText? }

  /** The map built by json.Unmarshal and the loop over it. */
  method CollectMembers(takes: Takes, ms: seq<Member>) returns (ok: bool, args: Args, hasSearch: bool, hasRecord: bool)
    ensures ok <==> forall j :: 0 <= j < |ms| ==> MemberOk(takes, ms[j])
    ensures ok ==> hasSearch == Present(ms, "search") && hasRecord == Present(ms, "record_id")
    ensures ok ==> args == Args(LastValue(ms, "search"), LastValue(ms, "record_id"))
  {
    ok, args, hasSearch, hasRecord := true, Args("", ""), false, false;
    var i := 0;
    while i < |ms|
      invariant 0 <= i <= |ms|
      invariant forall j :: 0 <= j < i ==> MemberOk(takes, ms[j])
      invariant hasSearch == Present(ms[..i], "search") && hasRecord == Present(ms[..i], "record_id")
      invariant args == Args(LastValue(ms[..i], "search"), LastValue(ms[..i], "record_id"))
    {
      var m := ms[i];
      if !MemberOk(takes, m) {
        ok := false;
        return;
      }
      assert ms[..i + 1][..i] == ms[..i] && ms[..i + 1][i] == m;
      PresentNext(ms, i, "search");
      PresentNext(ms, i, "record_id");
      var text := if m.value.Str? then m.value.text else "";
      if m.key == "search" {
        args, hasSearch := args.(search := text), true;
      } else {
        args, hasRecord := args.(recordId := text), true;
      }
      i := i + 1;
    }
    assert ms[..|ms|] == ms;
  }

  lemma PresentNext(ms: seq<Member>, i: nat, key: string)
    requires i < |ms|
    ensures Present(ms[..i + 1], key) <==> Present(ms[..i], key) || ms[i].key == key
  {
    if Present(ms[..i], key) {
      var j :| 0 <= j < i && ms[..i][j].key == key;
      assert ms[..i + 1][j].key == key;
    } else if ms[i].key == key {
      assert ms[..i + 1][i].key == key;
    } else {
      assert forall j :: 0 <= j < i ==> ms[j] == ms[..i][j];
      assert forall j :: 0 <= j <= i ==> ms[..i + 1][j] == ms[j];
    }
  }

  /** The second decode: into the struct that already holds the map's values. */
  method DecodeFields(tool: Tool, ms: seq<Member>, start: Args) returns (args: Args)
    requires forall i :: 0 <= i < |ms| ==> Allowed(tool.takes, ms[i].key)
    requires start == Args(LastValue(ms, "search"), LastValue(ms, "record_id"))
    ensures args == Args(LastText(ms, "search"), LastText(ms, "record_id"))
  {
    args := start;
    ghost var sText, rText := false, false;
    var i := 0;
    while i < |ms|
      invariant 0 <= i <= |ms|
      invariant args.search == if sText then LastText(ms[..i], "search") else start.search
      invariant args.recordId == if rText then LastText(ms[..i], "record_id") else start.recordId
      invariant sText <==> exists j :: 0 <= j < i && ms[j].key == "search" && ms[j].value.Str?
      invariant rText <==> exists j :: 0 <= j < i && ms[j].key == "record_id" && ms[j].value.Str?
    {
      var m := ms[i];
      assert ms[..i + 1][..i] == ms[..i] && ms[..i + 1][i] == m;
      if m.value.Str? {
        if m.key == "search" {
          args := args.(search := m.value.text);
          sText := true;
        } else {
          args := args.(recordId := m.value.text);
          rText := true;
        }
      }
      i := i + 1;
    }
    assert ms[..|ms|] == ms;
    if !sText { NoTextNoValue(ms, "search"); }
    if !rText { NoTextNoValue(ms, "record_id"); }
  }

  lemma {:induction false} NoTextNoValue(ms: seq<Member>, key: string)
    requires forall j :: 0 <= j < |ms| && ms[j].key == key ==> !ms[j].value.Str?
    ensures LastValue(ms, key) == "" && LastText(ms, key) == ""
  {
    if ms != [] { NoTextNoValue(ms[..|ms| - 1], key); }
  }

  /** Accepted arguments fill at most the one parameter the tool declares. */
  lemma DecodedShape(tool: Tool, raw: RawArgs)
    requires ArgsAccepted(tool, raw)
    ensures var a := DecodedArgs(tool, raw).value;
      && (!tool.takes.SearchText? ==> a.search == "")
      && (!tool.takes.RecordId? ==> a.recordId == "")
  {
    if !tool.takes.SearchText? { AbsentText(raw.members, "search"); }
    if !tool.takes.RecordId? { AbsentText(raw.members, "record_id"); }
  }

  lemma {:induction false} AbsentText(ms: seq<Member>, key: string)
    requires forall i :: 0 <= i < |ms| ==> ms[i].key != key
    ensures LastText(ms, key) == ""
  {
    if ms != [] { AbsentText(ms[..|ms| - 1], key); }
  }

  /** The limits on the one text a tool takes. */
  predicate TextWithin(takes: Takes, text: string) {
    ByteLen(text) <= (if takes.SearchText? then 80 else 128) && !ContainsLineBreak(text)
  }

  /** A text outside the limits is followed by nulls only, and by at least one. */
  ghost predicate Masked(takes: Takes, ms: seq<Member>) {
    exists i :: 0 <= i < |ms| - 1 && ms[i].value.Str? && !TextWithin(takes, ms[i].value.text) && OnlyNulls(ms, i + 1)
  }

  ghost predicate OnlyNulls(ms: seq<Member>, from: nat) {
    forall j :: from <= j < |ms| ==> ms[j].value.Null?
  }

  /** The limits are checked on the map, where a null counts as empty, and the reader gets the
      struct, where it changes nothing: accepted arguments keep the limits exactly when no
      text outside them is masked by nulls. */
  lemma DecodedWithinLimits(tool: Tool, raw: RawArgs)
    requires ArgsAccepted(tool, raw)
    ensures WithinLimits(DecodedArgs(tool, raw).value) <==> !Masked(tool.takes, raw.members)
  {
    DecodedShape(tool, raw);
    var ms := raw.members;
    if ms != [] {
      var key := if tool.takes.SearchText? then "search" else "record_id";
      assert forall i :: 0 <= i < |ms| ==> MemberOk(tool.takes, ms[i]) && ms[i].key == key;
      var last := LastTextAt(ms, key);
      if last < 0 {
        assert forall i :: 0 <= i < |ms| ==> !ms[i].value.Str?;
      } else {
        assert LastText(ms, key) == ms[last].value.text;
        assert forall i :: 0 <= i < last && ms[i].value.Str? ==> !OnlyNulls(ms, i + 1);
      }
    }
  }

  /** Where the last text stands; -1 when there is none. */
  lemma {:induction false} LastTextAt(ms: seq<Member>, key: string) returns (last: int)
    requires forall i :: 0 <= i < |ms| ==> ms[i].key == key && !ms[i].value.NotText?
    ensures -1 <= last < |ms| && OnlyNulls(ms, last + 1)
    ensures last >= 0 ==> ms[last].value.Str? && LastText(ms, key) == ms[last].value.text
    ensures last == -1 ==> LastText(ms, key) == ""
    ensures ms != [] ==> LastValue(ms, key) == if last == |ms| - 1 then LastText(ms, key) else ""
  {
    if ms == [] {
      last := -1;
    } else if ms[|ms| - 1].value.Str? {
      last := |ms| - 1;
    } else {
      last := LastTextAt(ms[..|ms| - 1], key);
    }
  }

  /** The failing family: a text of any length, followed by a null. */
  lemma LongTextAccepted(tool: Tool, text: string)
    requires tool.takes.SearchText? && ByteLen(text) > 80 && Trim(text) != ""
    ensures var raw := Object([Member("search", Str(text)), Member("search", Null)]);
      ArgsAccepted(tool, raw) && DecodedArgs(tool, raw).value.search == text && !WithinLimits(DecodedArgs(tool, raw).value)
  {
    var ms := [Member("search", Str(text)), Member("search", Null)];
    assert ms[..1] == [Member("search", Str(text))] && ms[..1][..0] == [];
    assert ms[0].key == "search";
    AbsentText(ms, "record_id");
    assert LastValue(ms, "record_id") == LastValue(ms[..1], "record_id") == LastValue(ms[..1][..0], "record_id") == "";
    assert LastText(ms, "search") == LastText(ms[..1], "search") == text;
  }

  /** In particular the limits hold when no member is repeated. */
  lemma UniqueWithinLimits(tool: Tool, raw: RawArgs)
    requires ArgsAccepted(tool, raw)
    requires forall i, j :: 0 <= i < j < |raw.members| ==> raw.members[i].key != raw.members[j].key
    ensures WithinLimits(DecodedArgs(tool, raw).value)
  {
    DecodedWithinLimits(tool, raw);
    var ms := raw.members;
    assert forall i, j :: 0 <= i < j < |ms| ==> !(MemberOk(tool.takes, ms[i]) && MemberOk(tool.takes, ms[j]));
  }

  // ---------------------------------------------------------------- read signatures

  datatype Request = Request(name: string, args: Args)

  function Signature(r: Request): string {
    r.name + "|" + r.args.search + "|" + r.args.recordId
  }

  /** A request the loop has validated against the offered tools. */
  ghost predicate ValidRequest(offer: Offer, r: Request) {
    && r.name in offer
    && (!offer[r.name].takes.SearchText? ==> r.args.search == "")
    && (!offer[r.name].takes.RecordId? ==> r.args.recordId == "")
  }

  /** The cache key is injective on validated requests: a tool admits one parameter, so the
      bars delimit the parts whatever the argument contains. */
  lemma SignatureInjective(offer: Offer, a: Request, b: Request)
    requires ValidOffer(offer) && ValidRequest(offer, a) && ValidRequest(offer, b)
    requires Signature(a) == Signature(b)
    ensures a == b
  {
    SameHead(a.name, a.args.search + "|" + a.args.recordId, b.name, b.args.search + "|" + b.args.recordId, Signature(a));
    var tail := a.args.search + "|" + a.args.recordId;
    assert tail == b.args.search + "|" + b.args.recordId;
    if offer[a.name].takes.RecordId? {
      assert tail[1..] == a.args.recordId && tail[1..] == b.args.recordId;
    } else {
      assert tail[..|tail| - 1] == a.args.search && tail[..|tail| - 1] == b.args.search;
    }
  }

  lemma SameHead(x: string, xs: string, y: string, ys: string, whole: string)
    requires NoBar(x) && NoBar(y)
    requires whole == x + "|" + xs && whole == y + "|" + ys
    ensures x == y && xs == ys
  {
    assert whole[|x|] == '|' && whole[|y|] == '|';
    assert forall i :: 0 <= i < |x| ==> whole[i] == x[i];
    assert forall i :: 0 <= i < |y| ==> whole[i] == y[i];
    assert |x| == |y|;
    assert x == whole[..|x|] && y == whole[..|y|];
    assert xs == whole[|x| + 1..] && ys == whole[|y| + 1..];
  }
}
