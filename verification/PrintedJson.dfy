/** JSON as `serde_json` prints it, without white space, and a reader that gets every
    printed document back. */
module PrintedJson {
  import opened Options
  import opened Numerals
  import opened WalletKeys

  datatype Document =
    | Null
    | Flag(b: bool)
    | Number(n: nat)
    | Text(s: string)
    | Items(items: seq<Document>)
    | Members(members: seq<Member>)

  datatype Member = Member(name: string, value: Document)

  /** Neither a quote nor a backslash. */
  predicate IsInner(c: char) {
    c != '\"' && c != '\\'
  }

  function EscapeChar(c: char): (r: string)
    ensures (r == [c] && IsInner(c)) || (|r| >= 2 && r[0] == '\\' && forall i :: 2 <= i < |r| ==> IsInner(r[i]))
  {
    if c == '\"' then "\\\""
    else if c == '\\' then "\\\\"
    else if c as int == 8 then "\\b"
    else if c == '\t' then "\\t"
    else if c == '\n' then "\\n"
    else if c as int == 12 then "\\f"
    else if c == '\r' then "\\r"
    else if c as int < 32 then "\\u00" + [HexDigit(c as int / 16), HexDigit(c as int % 16)]
    else [c]
  }

  function Escape(s: string): string {
    if s == [] then [] else EscapeChar(s[0]) + Escape(s[1..])
  }

  function Quoted(s: string): string {
    ['\"'] + Escape(s) + ['\"']
  }

  /** `serde_json::to_string`. */
  function Print(d: Document): string {
    match d
    case Null => "null"
    case Flag(b) => if b then "true" else "false"
    case Number(n) => Show(n)
    case Text(s) => Quoted(s)
    case Items(items) => "[" + PrintItems(items) + "]"
    case Members(members) => "{" + PrintMembers(members) + "}"
  }

  function PrintItems(items: seq<Document>): string {
    if items == [] then []
    else if |items| == 1 then Print(items[0])
    else Print(items[0]) + "," + PrintItems(items[1..])
  }

  function PrintMember(m: Member): string {
    Quoted(m.name) + ":" + Print(m.value)
  }

  function PrintMembers(members: seq<Member>): string {
    if members == [] then []
    else if |members| == 1 then PrintMember(members[0])
    else PrintMember(members[0]) + "," + PrintMembers(members[1..])
  }

  // ---- reading it back, by RFC 8259 ----

  datatype Read<T> = Read(value: T, rest: string)

  /** What a two-character escape stands for (section 7 of RFC 8259). */
  function ShortEscape(c: char): Option<char> {
    if c == '\"' || c == '\\' || c == '/' then Some(c)
    else if c == 'b' then Some(8 as char)
    else if c == 'f' then Some(12 as char)
    else if c == 'n' then Some('\n')
    else if c == 'r' then Some('\r')
    else if c == 't' then Some('\t')
    else None
  }

  /** One character of a string, escaped or not. A text is bytes here, so an escaped code above 127 is not read. */
  function ReadChar(s: string): (r: Option<Read<char>>)
    ensures r.Some? ==> |r.value.rest| < |s|
  {
    if s == [] || s[0] == '\"' || s[0] as int < 32 then None
    else if s[0] != '\\' then Some(Read(s[0], s[1..]))
    else if |s| >= 6 && s[1] == 'u' && AllHex(s[2..6]) && HexValue(s[2..6]) < 128
    then Some(Read(HexValue(s[2..6]) as char, s[6..]))
    else if |s| >= 2 && ShortEscape(s[1]).Some? then Some(Read(ShortEscape(s[1]).value, s[2..]))
    else None
  }

  /** A string, behind its opening quote. */
  function ReadString(s: string): (r: Option<Read<string>>)
    ensures r.Some? ==> |r.value.rest| < |s|
    decreases |s|
  {
    if s != [] && s[0] == '\"' then Some(Read([], s[1..]))
    else
      var c := ReadChar(s);
      if c.None? then None
      else
        var more := ReadString(c.value.rest);
        if more.None? then None else Some(Read([c.value.value] + more.value.value, more.value.rest))
  }

  /** How many digits the text begins with. */
  function DigitsIn(s: string): (n: nat)
    ensures n <= |s| && AllDigits(s[..n])
  {
    if s == [] || !IsDigit(s[0]) then 0
    else
      var n := 1 + DigitsIn(s[1..]);
      assert s[..n] == [s[0]] + s[1..][..n - 1];
      n
  }

  /** A number without a superfluous zero in front. */
  function ReadNumber(s: string): (r: Option<Read<Document>>)
    ensures r.Some? ==> |r.value.rest| < |s|
  {
    var n := DigitsIn(s);
    if n == 0 || Show(DecimalValue(s[..n])) != s[..n] then None else Some(Read(Number(DecimalValue(s[..n])), s[n..]))
  }

  function ReadWord(s: string): (r: Option<Read<Document>>)
    ensures r.Some? ==> |r.value.rest| < |s|
  {
    if StartsWith(s, "null") then Some(Read(Null, s[4..]))
    else if StartsWith(s, "true") then Some(Read(Flag(true), s[4..]))
    else if StartsWith(s, "false") then Some(Read(Flag(false), s[5..]))
    else None
  }

  function ReadValue(s: string): (r: Option<Read<Document>>)
    ensures r.Some? ==> |r.value.rest| < |s|
    decreases |s|, 0
  {
    if s == [] then None
    else if s[0] == '\"' then
      var text := ReadString(s[1..]);
      if text.None? then None else Some(Read(Text(text.value.value), text.value.rest))
    else if s[0] == '[' then
      if |s| > 1 && s[1] == ']' then Some(Read(Items([]), s[2..]))
      else
        var items := ReadItems(s[1..]);
        if items.None? then None else Some(Read(Items(items.value.value), items.value.rest))
    else if s[0] == '{' then
      if |s| > 1 && s[1] == '}' then Some(Read(Members([]), s[2..]))
      else
        var members := ReadMembers(s[1..]);
        if members.None? then None else Some(Read(Members(members.value.value), members.value.rest))
    else if IsDigit(s[0]) then ReadNumber(s)
    else ReadWord(s)
  }

  /** One item or more, and the closing bracket. */
  function ReadItems(s: string): (r: Option<Read<seq<Document>>>)
    ensures r.Some? ==> |r.value.rest| < |s|
    decreases |s|, 1
  {
    var first := ReadValue(s);
    if first.None? || first.value.rest == [] then None
    else if first.value.rest[0] == ']' then Some(Read([first.value.value], first.value.rest[1..]))
    else if first.value.rest[0] == ',' then
      var more := ReadItems(first.value.rest[1..]);
      if more.None? then None else Some(Read([first.value.value] + more.value.value, more.value.rest))
    else None
  }

  /** A name, a colon and a value. */
  function ReadMember(s: string): (r: Option<Read<Member>>)
    ensures r.Some? ==> |r.value.rest| < |s|
    decreases |s|, 1
  {
    if s == [] || s[0] != '\"' then None
    else
      var name := ReadString(s[1..]);
      if name.None? || name.value.rest == [] || name.value.rest[0] != ':' then None
      else
        var value := ReadValue(name.value.rest[1..]);
        if value.None? then None else Some(Read(Member(name.value.value, value.value.value), value.value.rest))
  }

  function ReadMembers(s: string): (r: Option<Read<seq<Member>>>)
    ensures r.Some? ==> |r.value.rest| < |s|
    decreases |s|, 2
  {
    var first := ReadMember(s);
    if first.None? || first.value.rest == [] then None
    else if first.value.rest[0] == '}' then Some(Read([first.value.value], first.value.rest[1..]))
    else if first.value.rest[0] == ',' then
      var more := ReadMembers(first.value.rest[1..]);
      if more.None? then None else Some(Read([first.value.value] + more.value.value, more.value.rest))
    else None
  }

  /** A whole text. */
  function ReadDocument(s: string): Option<Document> {
    var r := ReadValue(s);
    if r.Some? && r.value.rest == [] then Some(r.value.value) else None
  }

  // ---- what was printed is read ----

  /** What may follow a value. */
  predicate Ends(x: string) {
    x == [] || x[0] == ',' || x[0] == ']' || x[0] == '}'
  }

  lemma Assoc(a: string, b: string, c: string)
    ensures (a + b) + c == a + (b + c)
  {
  }

  lemma CodeReads(c: char)
    requires c as int < 32
    ensures var code := "00" + [HexDigit(c as int / 16), HexDigit(c as int % 16)];
            AllHex(code) && HexValue(code) == c as int
  {
    var h, l := HexDigit(c as int / 16), HexDigit(c as int % 16);
    var code := "00" + [h, l];
    assert code[..3] == "00" + [h] && code[..3][..2] == "00" && code[..3][..2][..1] == "0";
    assert HexValue("0") == HexValue([]) * 16 + NibbleValue('0') by {
      assert "0"[..0] == [];
    }
    assert HexValue("00") == 0 && HexValue(code[..3]) == c as int / 16;
  }

  lemma CharReads(c: char, x: string)
    ensures ReadChar(EscapeChar(c) + x) == Some(Read(c, x))
    ensures (EscapeChar(c) + x)[0] != '\"'
  {
    var e := EscapeChar(c);
    assert (e + x)[|e|..] == x;
    if |e| > 2 {
      CodeReads(c);
      assert (e + x)[2..6] == "00" + [HexDigit(c as int / 16), HexDigit(c as int % 16)];
    }
  }

  lemma {:induction false} EscapeReads(s: string, x: string)
    ensures ReadString(Escape(s) + (['\"'] + x)) == Some(Read(s, x))
  {
    var q := ['\"'] + x;
    if s == [] {
      assert Escape(s) + q == q && q[1..] == x;
    } else {
      EscapeReads(s[1..], x);
      Assoc(EscapeChar(s[0]), Escape(s[1..]), q);
      CharReads(s[0], Escape(s[1..]) + q);
      assert [s[0]] + s[1..] == s;
    }
  }

  lemma QuotedReads(s: string, x: string)
    ensures (Quoted(s) + x)[0] == '\"' && ReadString((Quoted(s) + x)[1..]) == Some(Read(s, x))
  {
    assert (Quoted(s) + x)[1..] == Escape(s) + (['\"'] + x);
    EscapeReads(s, x);
  }

  lemma {:induction false} DigitsCounted(a: string, x: string)
    requires AllDigits(a) && Ends(x)
    ensures DigitsIn(a + x) == |a|
  {
    if a == [] {
      assert a + x == x;
    } else {
      DigitsCounted(a[1..], x);
      assert (a + x)[1..] == a[1..] + x;
    }
  }

  lemma NumberReads(n: nat, x: string)
    requires Ends(x)
    ensures IsDigit((Show(n) + x)[0]) && ReadNumber(Show(n) + x) == Some(Read(Number(n), x))
  {
    DigitsCounted(Show(n), x);
    assert (Show(n) + x)[..|Show(n)|] == Show(n) && (Show(n) + x)[|Show(n)|..] == x;
  }

  lemma WordReads(d: Document, x: string)
    requires d.Null? || d.Flag?
    ensures ReadValue(Print(d) + x) == Some(Read(d, x))
  {
    var text := Print(d) + x;
    assert text[..|Print(d)|] == Print(d) && text[|Print(d)|..] == x;
    assert text[0] == Print(d)[0];
    if d.Flag? && !d.b {
      assert text[..4][0] == 'f';
    } else if d.Flag? {
      assert text[..4][0] == 't';
    }
  }

  /** The first character of a value closes nothing. */
  lemma PrintOpens(d: Document, x: string)
    ensures Print(d) != [] && (Print(d) + x)[0] != ']' && (Print(d) + x)[0] != '}'
  {
  }

  /** A printed value is read, and what follows it is left. */
  lemma {:induction false} ValueReads(d: Document, x: string)
    requires Ends(x)
    ensures ReadValue(Print(d) + x) == Some(Read(d, x))
    decreases d, 1
  {
    match d
    case Number(n) => NumberReads(n, x);
    case Text(s) => QuotedReads(s, x);
    case Items(items) => ArrayReads(items, x);
    case Members(members) => ObjectReads(members, x);
    case _ => WordReads(d, x);
  }

  lemma {:induction false} ArrayReads(items: seq<Document>, x: string)
    ensures ReadValue(Print(Items(items)) + x) == Some(Read(Items(items), x))
    decreases items, 1
  {
    var text := Print(Items(items)) + x;
    assert text[1..] == PrintItems(items) + ("]" + x);
    if items == [] {
      assert text[2..] == x;
    } else {
      FirstItem(items, x);
      PrintOpens(items[0], Following(items, x));
      ItemsRead(items, x);
      assert text[1] == text[1..][0];
    }
  }

  lemma {:induction false} ObjectReads(members: seq<Member>, x: string)
    ensures ReadValue(Print(Members(members)) + x) == Some(Read(Members(members), x))
    decreases members, 1
  {
    var text := Print(Members(members)) + x;
    assert text[1..] == PrintMembers(members) + ("}" + x);
    if members == [] {
      assert text[2..] == x;
    } else {
      FirstMember(members, x);
      MembersRead(members, x);
      assert text[1] == text[1..][0] == PrintMember(members[0])[0] == '\"';
    }
  }

  /** What stands behind the first item. */
  function Following(items: seq<Document>, x: string): string
    requires items != []
  {
    if |items| == 1 then "]" + x else "," + (PrintItems(items[1..]) + ("]" + x))
  }

  lemma FirstItem(items: seq<Document>, x: string)
    requires items != []
    ensures PrintItems(items) + ("]" + x) == Print(items[0]) + Following(items, x)
  {
    if |items| > 1 {
      Assoc(Print(items[0]) + ",", PrintItems(items[1..]), "]" + x);
      Assoc(Print(items[0]), ",", PrintItems(items[1..]) + ("]" + x));
    }
  }

  lemma {:induction false} ItemsRead(items: seq<Document>, x: string)
    requires items != []
    ensures ReadItems(PrintItems(items) + ("]" + x)) == Some(Read(items, x))
    decreases items, 0
  {
    FirstItem(items, x);
    var after := Following(items, x);
    ValueReads(items[0], after);
    if |items| == 1 {
      assert after[1..] == x && items == [items[0]];
    } else {
      assert after[1..] == PrintItems(items[1..]) + ("]" + x) && items == [items[0]] + items[1..];
      ItemsRead(items[1..], x);
    }
  }

  function FollowingMember(members: seq<Member>, x: string): string
    requires members != []
  {
    if |members| == 1 then "}" + x else "," + (PrintMembers(members[1..]) + ("}" + x))
  }

  lemma FirstMember(members: seq<Member>, x: string)
    requires members != []
    ensures PrintMembers(members) + ("}" + x) == PrintMember(members[0]) + FollowingMember(members, x)
  {
    if |members| > 1 {
      Assoc(PrintMember(members[0]) + ",", PrintMembers(members[1..]), "}" + x);
      Assoc(PrintMember(members[0]), ",", PrintMembers(members[1..]) + ("}" + x));
    }
  }

  lemma MemberThen(m: Member, x: string)
    ensures PrintMember(m) + x == Quoted(m.name) + (":" + (Print(m.value) + x))
  {
    Assoc(Quoted(m.name) + ":", Print(m.value), x);
    Assoc(Quoted(m.name), ":", Print(m.value) + x);
  }

  lemma {:induction false} MemberReads(m: Member, x: string)
    requires Ends(x)
    ensures ReadMember(PrintMember(m) + x) == Some(Read(m, x))
    decreases m
  {
    MemberThen(m, x);
    var after := ":" + (Print(m.value) + x);
    QuotedReads(m.name, after);
    ValueReads(m.value, x);
    assert after[1..] == Print(m.value) + x;
  }

  lemma {:induction false} MembersRead(members: seq<Member>, x: string)
    requires members != []
    ensures ReadMembers(PrintMembers(members) + ("}" + x)) == Some(Read(members, x))
    decreases members, 0
  {
    FirstMember(members, x);
    var after := FollowingMember(members, x);
    MemberReads(members[0], after);
    if |members| == 1 {
      assert after[1..] == x && members == [members[0]];
    } else {
      assert after[1..] == PrintMembers(members[1..]) + ("}" + x) && members == [members[0]] + members[1..];
      MembersRead(members[1..], x);
    }
  }

  /** Every printed document is read back whole. */
  lemma PrintReads(d: Document)
    ensures ReadDocument(Print(d)) == Some(d)
  {
    ValueReads(d, []);
    assert Print(d) + [] == Print(d);
  }

  /** One text, one document. */
  lemma PrintIsInjective(d: Document, e: Document)
    requires Print(d) == Print(e)
    ensures d == e
  {
    PrintReads(d);
    PrintReads(e);
  }
}
