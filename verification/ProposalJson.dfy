/** `json.Marshal(TransferProposal)`, the preimage of a proposal's digest, with a reader for
    it. Strings are escaped as section 7 of RFC 8259 allows and as Go's encoder chooses. */
module ProposalJson {
  import opened Text
  import opened Domain

  // ---------- writing ----------

  function HexDigit(n: nat): char
    requires n < 16
  {
    if n < 10 then ('0' as int + n) as char else ('a' as int + n - 10) as char
  }

  function UnicodeEscape(c: char): string
    requires c as int < 0x10000
  {
    var n := c as int;
    "\\u" + [HexDigit(n / 0x1000), HexDigit(n / 0x100 % 16), HexDigit(n / 16 % 16), HexDigit(n % 16)]
  }

  /** Control characters, the HTML characters and the two line separators get six-character escapes. */
  predicate NeedsUnicodeEscape(c: char) {
    c < ' ' || c in {'<', '>', '&', '\U{2028}', '\U{2029}'}
  }

  function EscapeChar(c: char): string {
    if c == '\"' then "\\\""
    else if c == '\\' then "\\\\"
    else if c == '\U{0008}' then "\\b"
    else if c == '\U{000C}' then "\\f"
    else if c == '\n' then "\\n"
    else if c == '\r' then "\\r"
    else if c == '\t' then "\\t"
    else if NeedsUnicodeEscape(c) then UnicodeEscape(c)
    else [c]
  }

  function Escape(s: string): string {
    if s == "" then "" else EscapeChar(s[0]) + Escape(s[1..])
  }

  function Quote(s: string): string { "\"" + Escape(s) + "\"" }

  function Digit(n: nat): char
    requires n < 10
  {
    ('0' as int + n) as char
  }

  function NatText(n: nat): string {
    if n < 10 then [Digit(n)] else NatText(n / 10) + [Digit(n % 10)]
  }

  function IntText(n: int): string {
    if n < 0 then "-" + NatText(-n) else NatText(n)
  }

  datatype Value = Str(text: string) | Num(number: int)

  datatype Member = Member(name: string, value: Value)

  function ValueText(v: Value): string {
    match v
    case Str(s) => Quote(s)
    case Num(n) => IntText(n)
  }

  function MemberText(m: Member): string {
    Quote(m.name) + ":" + ValueText(m.value)
  }

  function MembersText(ms: seq<Member>): string
    requires ms != []
  {
    if |ms| == 1 then MemberText(ms[0]) + "}"
    else MemberText(ms[0]) + "," + MembersText(ms[1..])
  }

  function ObjectText(ms: seq<Member>): string
    requires ms != []
  {
    "{" + MembersText(ms)
  }

  /** The nine members, in the order of the struct's fields and under its `json` names. */
  function Members(p: Proposal): seq<Member> {
    [ Member("orderId", Str(p.orderID)),
      Member("fromWarehouse", Str(p.fromWarehouse)),
      Member("toWarehouse", Str(p.toWarehouse)),
      Member("sku", Str(p.sku)),
      Member("quantity", Num(p.quantity)),
      Member("expectedOrderVersion", Num(p.expectedOrderVersion)),
      Member("additionalDays", Num(p.additionalDays)),
      Member("additionalCostCents", Num(p.additionalCostCents)),
      Member("currency", Str(p.currency)) ]
  }

  function Marshal(p: Proposal): string { ObjectText(Members(p)) }

  /** `TransferProposal.Digest`, over whatever function of the text the hash is. */
  function Digest(sha: string -> string, p: Proposal): string { sha(Marshal(p)) }

  // ---------- reading ----------

  function HexValue(c: char): Option<nat> {
    if '0' <= c <= '9' then Some(c as int - '0' as int)
    else if 'a' <= c <= 'f' then Some(c as int - 'a' as int + 10)
    else None
  }

  function ReadUnicodeEscape(t: string): (r: Option<(char, string)>)
    ensures r.Some? ==> |r.value.1| < |t|
  {
    if |t| < 4 then None else
    match (HexValue(t[0]), HexValue(t[1]), HexValue(t[2]), HexValue(t[3]))
    case (Some(a), Some(b), Some(c), Some(d)) =>
      var n := a * 0x1000 + b * 0x100 + c * 16 + d;
      if n < 0xD800 then Some((n as char, t[4..])) else None
    case _ => None
  }

  /** One character of a string's body, escaped or plain. */
  function ReadChar(t: string): (r: Option<(char, string)>)
    ensures r.Some? ==> |r.value.1| < |t|
  {
    if t == "" then None
    else if t[0] != '\\' then Some((t[0], t[1..]))
    else if |t| < 2 then None
    else match t[1]
      case '\"' => Some(('\"', t[2..]))
      case '\\' => Some(('\\', t[2..]))
      case 'b' => Some(('\U{0008}', t[2..]))
      case 'f' => Some(('\U{000C}', t[2..]))
      case 'n' => Some(('\n', t[2..]))
      case 'r' => Some(('\r', t[2..]))
      case 't' => Some(('\t', t[2..]))
      case 'u' => ReadUnicodeEscape(t[2..])
      case _ => None
  }

  /** The rest of a string whose opening quotation mark has been read. */
  function ReadBody(t: string): (r: Option<(string, string)>)
    ensures r.Some? ==> |r.value.1| < |t|
  {
    if t == "" then None
    else if t[0] == '\"' then Some(("", t[1..]))
    else match ReadChar(t)
      case None => None
      case Some((c, rest)) =>
        match ReadBody(rest)
        case None => None
        case Some((s, end)) => Some(([c] + s, end))
  }

  function ReadDigits(acc: nat, t: string): (r: (nat, string))
    ensures |r.1| <= |t|
    decreases |t|
  {
    if t == "" || !('0' <= t[0] <= '9') then (acc, t)
    else ReadDigits(acc * 10 + (t[0] as int - '0' as int), t[1..])
  }

  function ReadValue(t: string): (r: Option<(Value, string)>)
    ensures r.Some? ==> |r.value.1| <= |t|
  {
    if t == "" then None
    else if t[0] == '\"' then
      match ReadBody(t[1..])
      case None => None
      case Some((s, rest)) => Some((Str(s), rest))
    else if t[0] == '-' then
      var (n, rest) := ReadDigits(0, t[1..]);
      Some((Num(-(n as int)), rest))
    else
      var (n, rest) := ReadDigits(0, t);
      Some((Num(n), rest))
  }

  function ReadMember(t: string): (r: Option<(Member, string)>)
    ensures r.Some? ==> |r.value.1| < |t|
  {
    if t == "" || t[0] != '\"' then None else
    match ReadBody(t[1..])
    case None => None
    case Some((name, rest)) =>
      if rest == "" || rest[0] != ':' then None else
      match ReadValue(rest[1..])
      case None => None
      case Some((v, end)) => Some((Member(name, v), end))
  }

  function ReadMembers(t: string): Option<seq<Member>>
    decreases |t|
  {
    match ReadMember(t)
    case None => None
    case Some((m, rest)) =>
      if rest == "}" then Some([m])
      else if rest != "" && rest[0] == ',' then
        match ReadMembers(rest[1..])
        case None => None
        case Some(ms) => Some([m] + ms)
      else None
  }

  function ReadObject(t: string): Option<seq<Member>> {
    if t != "" && t[0] == '{' then ReadMembers(t[1..]) else None
  }

  // ---------- what is written is read back ----------

  lemma Regroup(a: string, b: string, c: string)
    ensures (a + b) + c == a + (b + c)
  {
  }

  lemma AfterFirst(a: string, t: string)
    requires |a| == 1
    ensures (a + t)[0] == a[0] && (a + t)[1..] == t
  {
  }

  lemma HexReads(n: nat)
    requires n < 16
    ensures HexValue(HexDigit(n)) == Some(n)
  {
  }

  lemma HexDigitsMeanCode(n: nat)
    requires n < 0x10000
    ensures n / 0x1000 * 0x1000 + n / 0x100 % 16 * 0x100 + n / 16 % 16 * 16 + n % 16 == n
  {
    assert n / 0x1000 == n / 0x100 / 16;
    assert n / 0x100 == n / 16 / 16;
  }

  lemma UnicodeDigitsRead(c: char, t: string)
    requires c as int < 0xD800
    ensures ReadUnicodeEscape(UnicodeEscape(c)[2..] + t) == Some((c, t))
  {
    var n := c as int;
    var text := UnicodeEscape(c)[2..] + t;
    HexReads(n / 0x1000);
    HexReads(n / 0x100 % 16);
    HexReads(n / 16 % 16);
    HexReads(n % 16);
    HexDigitsMeanCode(n);
    assert text[4..] == t;
  }

  lemma EscapedCharReads(c: char, t: string)
    ensures ReadChar(EscapeChar(c) + t) == Some((c, t))
  {
    var text := EscapeChar(c) + t;
    if |EscapeChar(c)| == 1 {
      AfterFirst(EscapeChar(c), t);
    } else if |EscapeChar(c)| == 2 {
      assert text[2..] == t;
    } else {
      assert text[2..] == UnicodeEscape(c)[2..] + t;
      UnicodeDigitsRead(c, t);
    }
  }

  lemma EscapedCharIsNoQuote(c: char)
    ensures EscapeChar(c) != "" && EscapeChar(c)[0] != '\"'
  {
  }

  lemma {:induction false} BodyReads(s: string, t: string)
    ensures ReadBody(Escape(s) + ("\"" + t)) == Some((s, t))
  {
    var end := "\"" + t;
    if s == "" {
      assert Escape(s) + end == end;
      AfterFirst("\"", t);
    } else {
      var more := Escape(s[1..]) + end;
      Regroup(EscapeChar(s[0]), Escape(s[1..]), end);
      EscapedCharReads(s[0], more);
      EscapedCharIsNoQuote(s[0]);
      BodyReads(s[1..], t);
      assert s == [s[0]] + s[1..];
    }
  }

  lemma QuoteReads(s: string, t: string)
    ensures (Quote(s) + t)[0] == '\"' && ReadBody((Quote(s) + t)[1..]) == Some((s, t))
  {
    assert (Quote(s) + t)[1..] == Escape(s) + ("\"" + t);
    BodyReads(s, t);
  }

  lemma {:induction false} DigitsRead(n: nat, t: string)
    ensures ReadDigits(0, NatText(n) + t) == ReadDigits(n, t)
    ensures '0' <= NatText(n)[0] <= '9'
  {
    if n < 10 {
      AfterFirst(NatText(n), t);
    } else {
      var d := [Digit(n % 10)];
      Regroup(NatText(n / 10), d, t);
      DigitsRead(n / 10, d + t);
      AfterFirst(d, t);
    }
  }

  lemma IntReads(n: int, t: string)
    requires t != "" && !('0' <= t[0] <= '9')
    ensures ReadValue(IntText(n) + t) == Some((Num(n), t))
  {
    if n < 0 {
      Regroup("-", NatText(-n), t);
      AfterFirst("-", NatText(-n) + t);
      DigitsRead(-n, t);
    } else {
      DigitsRead(n, t);
    }
  }

  lemma ValueReads(v: Value, t: string)
    requires t != "" && !('0' <= t[0] <= '9')
    ensures ReadValue(ValueText(v) + t) == Some((v, t))
  {
    match v
    case Str(s) => QuoteReads(s, t);
    case Num(n) => IntReads(n, t);
  }

  lemma NameAndValueRead(text: string, name: string, rest: string, v: Value, t: string)
    requires text != "" && text[0] == '\"' && ReadBody(text[1..]) == Some((name, rest))
    requires rest != "" && rest[0] == ':' && ReadValue(rest[1..]) == Some((v, t))
    ensures ReadMember(text) == Some((Member(name, v), t))
  {
    hide ReadBody, ReadValue;
  }

  lemma MemberReads(m: Member, t: string)
    requires t != "" && !('0' <= t[0] <= '9')
    ensures ReadMember(MemberText(m) + t) == Some((m, t))
  {
    var value := ValueText(m.value);
    var rest := ":" + (value + t);
    Regroup(Quote(m.name) + ":", value, t);
    Regroup(Quote(m.name), ":", value + t);
    assert MemberText(m) + t == Quote(m.name) + rest;
    ValueReads(m.value, t);
    QuoteReads(m.name, rest);
    AfterFirst(":", value + t);
    hide ReadBody, ReadValue, Quote, ValueText, MemberText, ReadMember;
    NameAndValueRead(Quote(m.name) + rest, m.name, rest, m.value, t);
  }

  lemma {:induction false} MembersRead(ms: seq<Member>)
    requires ms != []
    ensures ReadMembers(MembersText(ms)) == Some(ms)
  {
    hide ReadMember, MemberText;
    if |ms| == 1 {
      MemberReads(ms[0], "}");
      assert ms == [ms[0]];
    } else {
      var tail := MembersText(ms[1..]);
      Regroup(MemberText(ms[0]), ",", tail);
      MemberReads(ms[0], "," + tail);
      AfterFirst(",", tail);
      MembersRead(ms[1..]);
      assert ms == [ms[0]] + ms[1..];
    }
  }

  /** Round trip for any object of string and integer members. */
  lemma ObjectReads(ms: seq<Member>)
    requires ms != []
    ensures ReadObject(ObjectText(ms)) == Some(ms)
  {
    assert ObjectText(ms)[1..] == MembersText(ms);
    MembersRead(ms);
  }

  lemma MembersInjective(p: Proposal, q: Proposal)
    requires Members(p) == Members(q)
    ensures p == q
  {
    assert forall i | 0 <= i < 9 :: Members(p)[i] == Members(q)[i];
    assert Members(p)[0].value.text == Members(q)[0].value.text;
    assert Members(p)[1].value.text == Members(q)[1].value.text;
    assert Members(p)[2].value.text == Members(q)[2].value.text;
    assert Members(p)[3].value.text == Members(q)[3].value.text;
    assert Members(p)[4].value.number == Members(q)[4].value.number;
    assert Members(p)[5].value.number == Members(q)[5].value.number;
    assert Members(p)[6].value.number == Members(q)[6].value.number;
    assert Members(p)[7].value.number == Members(q)[7].value.number;
    assert Members(p)[8].value.text == Members(q)[8].value.text;
  }

  /** The preimage of a digest names its proposal: no two proposals marshal alike. */
  lemma MarshalInjective(p: Proposal, q: Proposal)
    ensures Marshal(p) == Marshal(q) <==> p == q
  {
    ObjectReads(Members(p));
    ObjectReads(Members(q));
    if Marshal(p) == Marshal(q) {
      assert Some(Members(p)) == Some(Members(q));
      MembersInjective(p, q);
    }
  }

  /** Two proposals share a digest only if they are one proposal or exhibit a collision of the hash. */
  lemma DigestBindsProposal(sha: string -> string, p: Proposal, q: Proposal)
    ensures Digest(sha, p) == Digest(sha, q) <==>
            p == q || (Marshal(p) != Marshal(q) && sha(Marshal(p)) == sha(Marshal(q)))
  {
    MarshalInjective(p, q);
  }

  // ---------- what the text looks like ----------

  /** The text reads back to nine members under the struct's names, in the order of its fields. */
  lemma MembersInOrder(p: Proposal)
    ensures ReadObject(Marshal(p)) == Some([
              Member("orderId", Str(p.orderID)), Member("fromWarehouse", Str(p.fromWarehouse)),
              Member("toWarehouse", Str(p.toWarehouse)), Member("sku", Str(p.sku)),
              Member("quantity", Num(p.quantity)), Member("expectedOrderVersion", Num(p.expectedOrderVersion)),
              Member("additionalDays", Num(p.additionalDays)), Member("additionalCostCents", Num(p.additionalCostCents)),
              Member("currency", Str(p.currency))])
  {
    var ms := Members(p);
    hide ReadObject, ObjectText;
    ObjectReads(ms);
  }

  /** Characters that stand for themselves. */
  predicate Plain(c: char) { c as int >= 0x20 && c as int !in {0x22, 0x26, 0x3C, 0x3E, 0x5C, 0x2028, 0x2029} }

  lemma PlainStays(c: char)
    requires Plain(c)
    ensures EscapeChar(c) == [c]
  {
  }

  lemma {:induction false} PlainEscape(s: string)
    requires forall c | c in s :: Plain(c)
    ensures Escape(s) == s
  {
    if s != "" {
      PlainStays(s[0]);
      assert forall c | c in s[1..] :: c in s;
      hide EscapeChar, Plain;
      PlainEscape(s[1..]);
      assert s == [s[0]] + s[1..];
    }
  }

  /** The short escapes. */
  lemma ShortEscapes(c: char)
    ensures c as int == 0x22 ==> EscapeChar(c) == ['\\', '\"']
    ensures c as int == 0x5C ==> EscapeChar(c) == ['\\', '\\']
    ensures c as int == 0x08 ==> EscapeChar(c) == ['\\', 'b']
    ensures c as int == 0x0C ==> EscapeChar(c) == ['\\', 'f']
    ensures c as int == 0x0A ==> EscapeChar(c) == ['\\', 'n']
    ensures c as int == 0x0D ==> EscapeChar(c) == ['\\', 'r']
    ensures c as int == 0x09 ==> EscapeChar(c) == ['\\', 't']
  {
  }

  /** The other control characters, the HTML characters and the line separators are written by number. */
  lemma LongEscapes(c: char)
    requires c as int < 0x20 || c as int in {0x26, 0x3C, 0x3E, 0x2028, 0x2029}
    requires c as int !in {0x08, 0x09, 0x0A, 0x0C, 0x0D}
    ensures EscapeChar(c) == "\\u"
              + [HexDigit(c as int / 0x1000), HexDigit(c as int / 0x100 % 16), HexDigit(c as int / 16 % 16), HexDigit(c as int % 16)]
  {
    assert NeedsUnicodeEscape(c);
    assert c != '\"' && c != '\\';
    hide HexDigit, NeedsUnicodeEscape;
  }

  lemma HexDigitsAre(n: nat)
    requires n < 16
    ensures HexDigit(n) == "0123456789abcdef"[n]
  {
  }

  /** No string writes a control character, an HTML character or a line separator as itself. */
  lemma {:induction false} EscapedIsSafe(s: string)
    ensures forall c | c in Escape(s) :: c as int >= 0x20 && c as int !in {0x26, 0x3C, 0x3E, 0x2028, 0x2029}
  {
    if s != "" {
      EscapedIsSafe(s[1..]);
      EscapesSafely(s[0]);
      hide EscapeChar;
    }
  }

  lemma EscapesSafely(c: char)
    ensures forall x | x in EscapeChar(c) :: x as int >= 0x20 && x as int !in {0x26, 0x3C, 0x3E, 0x2028, 0x2029}
  {
  }

  /** Numbers are written in decimal digits without leading zeros. */
  lemma {:induction false} NoLeadingZero(n: nat)
    ensures NatText(n)[0] == '0' ==> n == 0
  {
    if n >= 10 { NoLeadingZero(n / 10); }
  }

  /** Braces, quotes, colons and commas, and no blanks between them. */
  lemma ObjectLayout(a: Member, b: Member)
    requires forall c | c in a.name + b.name :: Plain(c)
    ensures ObjectText([a, b]) ==
            "{" + (("\"" + a.name + "\":" + ValueText(a.value)) + "," + (("\"" + b.name + "\":" + ValueText(b.value)) + "}"))
  {
    MemberLayout(a);
    MemberLayout(b);
    hide MemberText, ValueText;
    assert [a, b][1..] == [b];
    assert MembersText([b]) == MemberText(b) + "}";
    assert MembersText([a, b]) == MemberText(a) + "," + MembersText([b]);
  }

  lemma MemberLayout(m: Member)
    requires forall c | c in m.name :: Plain(c)
    ensures MemberText(m) == "\"" + m.name + "\":" + ValueText(m.value)
  {
    PlainEscape(m.name);
    hide ValueText;
  }

  lemma TextLayout(s: string)
    requires forall c | c in s :: Plain(c)
    ensures ValueText(Str(s)) == "\"" + s + "\""
  {
    PlainEscape(s);
  }
}
