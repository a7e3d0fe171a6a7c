/** An access condition as JSON: what a row is priced by and what a signature covers. */
module ConditionText {
  import opened Options
  import opened Numerals
  import opened Conditions
  import opened PrintedJson

  function OperatorName(o: Operator): string {
    match o
    case And => "And"
    case Or => "Or"
  }

  function ComparisonName(c: Comparison): string {
    match c
    case Gte => "Gte"
    case Lte => "Lte"
    case Gt => "Gt"
    case Lt => "Lt"
    case Eq => "Eq"
    case Ne => "Ne"
  }

  /** Token amounts and 64-bit times are printed as text. */
  function Amount(n: nat): Document {
    Text(Show(n))
  }

  /** A variant with fields: an object under the variant's name. */
  function Variant(tag: string, fields: seq<Member>): Document {
    Members([Member(tag, Members(fields))])
  }

  function Texts(names: seq<string>): seq<Document> {
    seq(|names|, i requires 0 <= i < |names| => Text(names[i]))
  }

  function TagOf(c: Condition): string {
    match c
    case Logic(_, _) => "Logic"
    case Not(_) => "Not"
    case AllowAll => "AllowAll"
    case Whitelist(_) => "Whitelist"
    case AccountPattern(_) => "AccountPattern"
    case NearBalance(_, _) => "NearBalance"
    case FtBalance(_, _, _) => "FtBalance"
    case NftOwned(_, _) => "NftOwned"
    case DaoMember(_, _) => "DaoMember"
    case ValidUntil(_) => "ValidUntil"
    case WasmHash(_) => "WasmHash"
    case Predecessor(_) => "Predecessor"
  }

  /** A variant's fields in the order of their declaration. */
  function FieldsOf(c: Condition): seq<Member>
    decreases c, 1
  {
    match c
    case Logic(o, cs) => [Member("operator", Text(OperatorName(o))), Member("conditions", Items(AllToJson(cs)))]
    case Not(inner) => [Member("condition", ToJson(inner))]
    case AllowAll => []
    case Whitelist(accounts) => [Member("accounts", Items(Texts(accounts)))]
    case AccountPattern(pattern) => [Member("pattern", Text(pattern))]
    case NearBalance(o, n) => [Member("operator", Text(ComparisonName(o))), Member("value", Amount(n))]
    case FtBalance(token, o, n) =>
      [Member("contract", Text(token)), Member("operator", Text(ComparisonName(o))), Member("value", Amount(n))]
    case NftOwned(collection, id) =>
      [Member("contract", Text(collection)), Member("token_id", if id.Some? then Text(id.value) else Null)]
    case DaoMember(dao, role) => [Member("dao_contract", Text(dao)), Member("role", Text(role))]
    case ValidUntil(t) => [Member("until_ns", Amount(t))]
    case WasmHash(hash) => [Member("hash", Text(hash))]
    case Predecessor(inner) => [Member("condition", ToJson(inner))]
  }

  /** The condition's JSON. */
  function ToJson(c: Condition): Document
    decreases c, 2
  {
    if c.AllowAll? then Text(TagOf(c)) else Variant(TagOf(c), FieldsOf(c))
  }

  function AllToJson(cs: seq<Condition>): seq<Document>
    decreases cs, 0
  {
    if cs == [] then [] else [ToJson(cs[0])] + AllToJson(cs[1..])
  }

  /** `serde_json::to_string(access)`. */
  function PrintCondition(c: Condition): string {
    Print(ToJson(c))
  }

  // ---- reading it back, as the source's derived deserialiser does: variants and fields by name ----

  function OperatorNamed(s: string): Option<Operator> {
    if s == "And" then Some(And) else if s == "Or" then Some(Or) else None
  }

  function ComparisonNamed(s: string): Option<Comparison> {
    if s == "Gte" then Some(Gte)
    else if s == "Lte" then Some(Lte)
    else if s == "Gt" then Some(Gt)
    else if s == "Lt" then Some(Lt)
    else if s == "Eq" then Some(Eq)
    else if s == "Ne" then Some(Ne)
    else None
  }

  /** Where the field of that name stands; at the end if there is none. */
  function At(fields: seq<Member>, name: string): (i: nat)
    ensures i <= |fields|
  {
    if fields == [] || fields[0].name == name then 0 else 1 + At(fields[1..], name)
  }

  function TextAt(fields: seq<Member>, name: string): Option<string> {
    var i := At(fields, name);
    if i < |fields| && fields[i].value.Text? then Some(fields[i].value.s) else None
  }

  /** A number printed as text. */
  function AmountAt(fields: seq<Member>, name: string): Option<nat> {
    var t := TextAt(fields, name);
    if t.Some? && t.value != [] && AllDigits(t.value) then Some(DecimalValue(t.value)) else None
  }

  function ComparisonAt(fields: seq<Member>): Option<Comparison> {
    var t := TextAt(fields, "operator");
    if t.None? then None else ComparisonNamed(t.value)
  }

  predicate AllTexts(items: seq<Document>) {
    forall i :: 0 <= i < |items| ==> items[i].Text?
  }

  function ListAt(fields: seq<Member>, name: string): Option<seq<string>> {
    var i := At(fields, name);
    if i < |fields| && fields[i].value.Items? && AllTexts(fields[i].value.items)
    then Some(seq(|fields[i].value.items|, j requires 0 <= j < |fields[i].value.items| => fields[i].value.items[j].s))
    else None
  }

  /** A text, or null for none. */
  function OptionAt(fields: seq<Member>, name: string): Option<Option<string>> {
    var i := At(fields, name);
    if i < |fields| && fields[i].value.Text? then Some(Some(fields[i].value.s))
    else if i < |fields| && fields[i].value.Null? then Some(None)
    else None
  }

  function LeafFromJson(tag: string, fields: seq<Member>): Option<Condition> {
    var contract, operator := TextAt(fields, "contract"), ComparisonAt(fields);
    if tag == "Whitelist" then
      var accounts := ListAt(fields, "accounts");
      if accounts.Some? then Some(Whitelist(accounts.value)) else None
    else if tag == "AccountPattern" then
      var pattern := TextAt(fields, "pattern");
      if pattern.Some? then Some(AccountPattern(pattern.value)) else None
    else if tag == "NearBalance" then
      var value := AmountAt(fields, "value");
      if operator.Some? && value.Some? then Some(NearBalance(operator.value, value.value)) else None
    else if tag == "FtBalance" then
      var value := AmountAt(fields, "value");
      if contract.Some? && operator.Some? && value.Some?
      then Some(FtBalance(contract.value, operator.value, value.value)) else None
    else if tag == "NftOwned" then
      var tokenId := OptionAt(fields, "token_id");
      if contract.Some? && tokenId.Some? then Some(NftOwned(contract.value, tokenId.value)) else None
    else if tag == "DaoMember" then
      var dao, role := TextAt(fields, "dao_contract"), TextAt(fields, "role");
      if dao.Some? && role.Some? then Some(DaoMember(dao.value, role.value)) else None
    else if tag == "ValidUntil" then
      var until := AmountAt(fields, "until_ns");
      if until.Some? then Some(ValidUntil(until.value)) else None
    else if tag == "WasmHash" then
      var hash := TextAt(fields, "hash");
      if hash.Some? then Some(WasmHash(hash.value)) else None
    else None
  }

  function FromJson(d: Document): Option<Condition>
    decreases d, 2
  {
    if d.Text? then if d.s == "AllowAll" then Some(AllowAll) else None
    else if d.Members? && |d.members| == 1 && d.members[0].value.Members?
    then VariantFromJson(d.members[0].name, d.members[0].value.members)
    else None
  }

  function VariantFromJson(tag: string, fields: seq<Member>): Option<Condition>
    decreases fields, 1
  {
    if tag == "Logic" then
      var operator, i := TextAt(fields, "operator"), At(fields, "conditions");
      if operator.Some? && OperatorNamed(operator.value).Some? && i < |fields| && fields[i].value.Items? then
        var conditions := AllFromJson(fields[i].value.items);
        if conditions.Some? then Some(Logic(OperatorNamed(operator.value).value, conditions.value)) else None
      else None
    else if tag == "Not" || tag == "Predecessor" then
      var i := At(fields, "condition");
      if i == |fields| then None
      else
        var inner := FromJson(fields[i].value);
        if inner.None? then None else Some(if tag == "Not" then Not(inner.value) else Predecessor(inner.value))
    else LeafFromJson(tag, fields)
  }

  function AllFromJson(items: seq<Document>): Option<seq<Condition>>
    decreases items, 0
  {
    if items == [] then Some([])
    else
      var first, more := FromJson(items[0]), AllFromJson(items[1..]);
      if first.Some? && more.Some? then Some([first.value] + more.value) else None
  }

  // ---- what was written is read ----

  lemma AtFirst(fields: seq<Member>, name: string)
    requires fields != [] && fields[0].name == name
    ensures At(fields, name) == 0
  {
  }

  lemma AtSecond(fields: seq<Member>, name: string)
    requires |fields| > 1 && fields[0].name != name && fields[1].name == name
    ensures At(fields, name) == 1
  {
    AtFirst(fields[1..], name);
  }

  lemma AtThird(fields: seq<Member>, name: string)
    requires |fields| > 2 && fields[0].name != name && fields[1].name != name && fields[2].name == name
    ensures At(fields, name) == 2
  {
    AtSecond(fields[1..], name);
  }

  lemma ComparisonIsRead(c: Comparison)
    ensures ComparisonNamed(ComparisonName(c)) == Some(c)
  {
  }

  lemma BalanceReads(c: Condition)
    requires c.NearBalance? || c.FtBalance?
    ensures LeafFromJson(TagOf(c), FieldsOf(c)) == Some(c)
  {
    var fields := FieldsOf(c);
    ComparisonIsRead(c.comparison);
    assert DecimalValue(Show(c.amount)) == c.amount;
    if c.NearBalance? {
      AtFirst(fields, "operator");
      AtSecond(fields, "value");
    } else {
      AtFirst(fields, "contract");
      AtSecond(fields, "operator");
      AtThird(fields, "value");
    }
  }

  lemma TextLeafReads(c: Condition)
    requires c.NftOwned? || c.DaoMember? || c.AccountPattern? || c.WasmHash?
    ensures LeafFromJson(TagOf(c), FieldsOf(c)) == Some(c)
  {
    var fields := FieldsOf(c);
    AtFirst(fields, fields[0].name);
    if c.NftOwned? {
      AtSecond(fields, "token_id");
    } else if c.DaoMember? {
      AtSecond(fields, "role");
    }
  }

  lemma OtherLeafReads(c: Condition)
    requires c.Whitelist? || c.ValidUntil?
    ensures LeafFromJson(TagOf(c), FieldsOf(c)) == Some(c)
  {
    var fields := FieldsOf(c);
    AtFirst(fields, fields[0].name);
    if c.Whitelist? {
      assert |Texts(c.accounts)| == |c.accounts|;
      assert ListAt(fields, "accounts").value == c.accounts;
    } else {
      assert DecimalValue(Show(c.untilNs)) == c.untilNs;
    }
  }

  /** A leaf's tag is no inner node's. */
  lemma LeafTag(c: Condition)
    requires !c.Logic? && !c.Not? && !c.Predecessor?
    ensures TagOf(c) != "Logic" && TagOf(c) != "Not" && TagOf(c) != "Predecessor"
  {
    assert TagOf(c)[0] != 'L' && (TagOf(c)[0] == 'N' ==> |TagOf(c)| > 3) && TagOf(c)[0] != 'P';
  }

  /** Every condition is read back from its JSON. */
  lemma {:induction false} ToJsonReads(c: Condition)
    ensures FromJson(ToJson(c)) == Some(c)
    decreases c, 1
  {
    var fields := FieldsOf(c);
    match c
    case AllowAll =>
    case Logic(o, cs) =>
      AtFirst(fields, "operator");
      AtSecond(fields, "conditions");
      AllToJsonReads(cs);
      assert OperatorNamed(OperatorName(o)) == Some(o);
    case Not(inner) =>
      AtFirst(fields, "condition");
      ToJsonReads(inner);
    case Predecessor(inner) =>
      AtFirst(fields, "condition");
      ToJsonReads(inner);
      assert "Predecessor" != "Logic" && "Predecessor" != "Not";
    case _ => LeafReads(c);
  }

  lemma LeafReads(c: Condition)
    requires !c.Logic? && !c.Not? && !c.Predecessor? && !c.AllowAll?
    ensures FromJson(ToJson(c)) == Some(c)
  {
    LeafTag(c);
    if c.NearBalance? || c.FtBalance? {
      BalanceReads(c);
    } else if c.Whitelist? || c.ValidUntil? {
      OtherLeafReads(c);
    } else {
      TextLeafReads(c);
    }
  }

  lemma {:induction false} AllToJsonReads(cs: seq<Condition>)
    ensures AllFromJson(AllToJson(cs)) == Some(cs)
    decreases cs, 0
  {
    if cs != [] {
      assert AllToJson(cs)[0] == ToJson(cs[0]) && AllToJson(cs)[1..] == AllToJson(cs[1..]);
      ToJsonReads(cs[0]);
      AllToJsonReads(cs[1..]);
      assert cs == [cs[0]] + cs[1..];
    }
  }

  /** The condition a text stands for. */
  function ReadCondition(s: string): Option<Condition> {
    var d := ReadDocument(s);
    if d.None? then None else FromJson(d.value)
  }

  /** Every printed condition is read back. */
  lemma PrintConditionReads(c: Condition)
    ensures ReadCondition(PrintCondition(c)) == Some(c)
  {
    PrintReads(ToJson(c));
    ToJsonReads(c);
  }

  /** One text, one condition. */
  lemma PrintConditionIsInjective(c: Condition, d: Condition)
    requires PrintCondition(c) == PrintCondition(d)
    ensures c == d
  {
    PrintConditionReads(c);
    PrintConditionReads(d);
  }
}
