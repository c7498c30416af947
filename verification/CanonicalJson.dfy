/**
 `json.dumps(v, sort_keys=True, separators=(",", ":"))` with ASCII output (RFC
 8259, sections 4 to 7), and the proof that its output determines the value.
 The proof reads the text from the left: two encodings that begin the same text
 are encodings of the same value, whatever follows them.
 */
module CanonicalJson {
  import opened Text
  import opened Values

  // ------------------------------------------------------------ text pieces

  lemma CancelLeft(p: string, a: string, b: string)
    requires p + a == p + b
    ensures a == b
  {
    assert (p + a)[|p|..] == a && (p + b)[|p|..] == b;
  }

  lemma Regroup(a: string, b: string, c: string)
    ensures a + b + c == a + (b + c)
  {
  }

  /** The first characters of two spellings of one text. */
  lemma SameHead(a: string, r1: string, b: string, r2: string)
    requires a != "" && b != "" && a + r1 == b + r2
    ensures a[0] == b[0]
  {
    assert (a + r1)[0] == a[0] && (b + r2)[0] == b[0];
  }

  // ------------------------------------------------------------ strings

  function HexDigit(d: nat): char
    requires d < 16
  {
    if d < 10 then '0' + d as char else 'a' + (d - 10) as char
  }

  function Hex4(n: nat): (s: string)
    requires n < 0x10000
    ensures |s| == 4
  {
    var n1 := n / 0x10;
    var n2 := n1 / 0x10;
    [HexDigit(n2 / 0x10), HexDigit(n2 % 0x10), HexDigit(n1 % 0x10), HexDigit(n % 0x10)]
  }

  function UnicodeEscape(n: nat): (s: string)
    requires n < 0x10000
    ensures |s| == 6
  {
    "\\u" + Hex4(n)
  }

  /** The escape after a backslash, for the characters that have a short one. */
  function ShortEscape(c: char): (e: char)
    ensures e != 'u'
  {
    if c == '\"' then '\"'
    else if c == '\\' then '\\'
    else if c == '\n' then 'n'
    else if c == '\r' then 'r'
    else if c == '\t' then 't'
    else if c == '\U{0C}' then 'f'
    else if c == '\U{08}' then 'b'
    else '?'
  }

  /** One character of a string literal; beyond the basic plane, a surrogate pair. */
  function EscapeChar(c: char): (s: string)
    ensures s != "" && s[0] != '\"'
  {
    if ShortEscape(c) != '?' then ['\\', ShortEscape(c)]
    else if ' ' <= c <= '~' then [c]
    else if (c as int) < 0x10000 then UnicodeEscape(c as int)
    else
      var n := c as int - 0x10000;
      UnicodeEscape(0xD800 + n / 0x400) + UnicodeEscape(0xDC00 + n % 0x400)
  }

  /** The rest of a string literal, closing quote included. */
  function StringTail(s: string): (t: string)
    ensures t != ""
  {
    if s == "" then "\"" else EscapeChar(s[0]) + StringTail(s[1..])
  }

  function Quote(s: string): (t: string)
    ensures t != "" && t[0] == '\"'
  {
    "\"" + StringTail(s)
  }

  lemma HexDigitInjective(a: nat, b: nat)
    requires a < 16 && b < 16 && HexDigit(a) == HexDigit(b)
    ensures a == b
  {
    assert HexDigit(a) as int == if a < 10 then 48 + a else 87 + a;
    assert HexDigit(b) as int == if b < 10 then 48 + b else 87 + b;
  }

  lemma Hex4Injective(a: nat, b: nat)
    requires a < 0x10000 && b < 0x10000 && Hex4(a) == Hex4(b)
    ensures a == b
  {
    var a1, b1 := a / 0x10, b / 0x10;
    var a2, b2 := a1 / 0x10, b1 / 0x10;
    var s, t := Hex4(a), Hex4(b);
    assert s[0] == t[0] && s[1] == t[1] && s[2] == t[2] && s[3] == t[3];
    HexDigitInjective(a2 / 0x10, b2 / 0x10);
    HexDigitInjective(a2 % 0x10, b2 % 0x10);
    HexDigitInjective(a1 % 0x10, b1 % 0x10);
    HexDigitInjective(a % 0x10, b % 0x10);
  }

  lemma UnicodeEscapeUnique(a: nat, b: nat, r1: string, r2: string)
    requires a < 0x10000 && b < 0x10000
    requires UnicodeEscape(a) + r1 == UnicodeEscape(b) + r2
    ensures a == b && r1 == r2
  {
    var t := UnicodeEscape(a) + r1;
    assert t[2..6] == Hex4(a) && t[2..6] == Hex4(b);
    Hex4Injective(a, b);
    assert t[6..] == r1 && t[6..] == r2;
  }

  /** Characters written as `\\uXXXX`, and the first code unit written for them. */
  predicate Escaped(c: char) { ShortEscape(c) == '?' && !(' ' <= c <= '~') }

  function LeadUnit(c: char): (n: nat)
    requires Escaped(c)
    ensures n < 0x10000
  {
    if (c as int) < 0x10000 then c as int else 0xD800 + (c as int - 0x10000) / 0x400
  }

  /** Beyond the basic plane a second code unit follows. */
  function TrailText(c: char): string
    requires Escaped(c)
  {
    if (c as int) < 0x10000 then "" else UnicodeEscape(0xDC00 + (c as int - 0x10000) % 0x400)
  }

  lemma EscapedUnique(c1: char, c2: char, r1: string, r2: string)
    requires Escaped(c1) && Escaped(c2)
    requires EscapeChar(c1) + r1 == EscapeChar(c2) + r2
    ensures c1 == c2 && r1 == r2
  {
    var h1, h2 := LeadUnit(c1), LeadUnit(c2);
    EscapedParts(c1);
    EscapedParts(c2);
    Regroup(UnicodeEscape(h1), TrailText(c1), r1);
    Regroup(UnicodeEscape(h2), TrailText(c2), r2);
    UnicodeEscapeUnique(h1, h2, TrailText(c1) + r1, TrailText(c2) + r2);
    LeadUnitPlane(c1);
    LeadUnitPlane(c2);
    TrailUnique(c1, c2, r1, r2);
  }

  lemma EscapedParts(c: char)
    requires Escaped(c)
    ensures EscapeChar(c) == UnicodeEscape(LeadUnit(c)) + TrailText(c)
  {
  }

  lemma TrailUnique(c1: char, c2: char, r1: string, r2: string)
    requires Escaped(c1) && Escaped(c2) && LeadUnit(c1) == LeadUnit(c2)
    requires c1 as int >= 0x10000 <==> c2 as int >= 0x10000
    requires TrailText(c1) + r1 == TrailText(c2) + r2
    ensures c1 == c2 && r1 == r2
  {
    if c1 as int >= 0x10000 {
      var n1, n2 := c1 as int - 0x10000, c2 as int - 0x10000;
      UnicodeEscapeUnique(0xDC00 + n1 % 0x400, 0xDC00 + n2 % 0x400, r1, r2);
      assert n1 == n1 / 0x400 * 0x400 + n1 % 0x400 && n2 == n2 / 0x400 * 0x400 + n2 % 0x400;
    } else {
      assert TrailText(c1) + r1 == r1 && TrailText(c2) + r2 == r2;
    }
  }

  /** Scalar values never fall in the surrogate range, so the lead unit tells the plane. */
  lemma LeadUnitPlane(c: char)
    requires Escaped(c)
    ensures c as int >= 0x10000 <==> 0xD800 <= LeadUnit(c) < 0xDC00
  {
  }

  /** An escaped character can be told from what follows it. */
  lemma EscapeCharUnique(c1: char, c2: char, r1: string, r2: string)
    requires EscapeChar(c1) + r1 == EscapeChar(c2) + r2
    ensures c1 == c2 && r1 == r2
  {
    var t := EscapeChar(c1) + r1;
    assert t[0] == EscapeChar(c1)[0] && t[0] == EscapeChar(c2)[0];
    if Escaped(c1) && Escaped(c2) {
      EscapedUnique(c1, c2, r1, r2);
    } else {
      var k := |EscapeChar(c1)|;
      if t[0] == '\\' {
        assert t[1] == EscapeChar(c1)[1] && t[1] == EscapeChar(c2)[1];
      }
      assert k == |EscapeChar(c2)|;
      assert t[k..] == r1 && t[k..] == r2;
    }
  }

  /** A string literal ends where its quote says, so its text is recovered. */
  lemma {:induction false} StringTailUnique(s1: string, s2: string, r1: string, r2: string)
    requires StringTail(s1) + r1 == StringTail(s2) + r2
    ensures s1 == s2 && r1 == r2
    decreases |s1|
  {
    if s1 == "" || s2 == "" {
      ClosingQuote(s1, s2, r1, r2);
    } else {
      hide EscapeChar;
      var f1 := StringTail(s1[1..]) + r1;
      var f2 := StringTail(s2[1..]) + r2;
      Regroup(EscapeChar(s1[0]), StringTail(s1[1..]), r1);
      Regroup(EscapeChar(s2[0]), StringTail(s2[1..]), r2);
      EscapeCharUnique(s1[0], s2[0], f1, f2);
      StringTailUnique(s1[1..], s2[1..], r1, r2);
      assert s1 == [s1[0]] + s1[1..] && s2 == [s2[0]] + s2[1..];
    }
  }

  /** Only the closing quote starts with a quote. */
  lemma ClosingQuote(s1: string, s2: string, r1: string, r2: string)
    requires StringTail(s1) + r1 == StringTail(s2) + r2 && (s1 == "" || s2 == "")
    ensures s1 == s2 && r1 == r2
  {
    var t := StringTail(s1) + r1;
    assert t[0] == StringTail(s1)[0] && t[0] == StringTail(s2)[0];
    assert t[1..] == r1 && t[1..] == r2;
  }

  lemma QuoteUnique(s1: string, s2: string, r1: string, r2: string)
    requires Quote(s1) + r1 == Quote(s2) + r2
    ensures s1 == s2 && r1 == r2
  {
    hide StringTail;
    var t := Quote(s1) + r1;
    assert t[1..] == StringTail(s1) + r1 && t[1..] == StringTail(s2) + r2;
    StringTailUnique(s1, s2, r1, r2);
  }

  // ------------------------------------------------------------ integers

  /** What may follow a value inside a document: nothing, or a delimiter. */
  predicate Delimited(r: string)
  {
    r == "" || r[0] == ',' || r[0] == ']' || r[0] == '}'
  }

  /** Runs of digits that end at a delimiter have one length. */
  lemma DigitRunLength(d1: string, r1: string, d2: string, r2: string)
    requires forall i :: 0 <= i < |d1| ==> IsDigit(d1[i])
    requires forall i :: 0 <= i < |d2| ==> IsDigit(d2[i])
    requires Delimited(r1) && Delimited(r2) && d1 + r1 == d2 + r2
    ensures |d1| >= |d2|
  {
    var u := d1 + r1;
    assert forall i :: 0 <= i < |d2| ==> u[i] == d2[i];
    assert r1 != "" ==> u[|d1|] == r1[0];
  }

  lemma DecimalUnique(a: nat, b: nat, r1: string, r2: string)
    requires Decimal(a) + r1 == Decimal(b) + r2
    requires Delimited(r1) && Delimited(r2)
    ensures a == b && r1 == r2
  {
    var d1, d2 := Decimal(a), Decimal(b);
    DigitRunLength(d1, r1, d2, r2);
    DigitRunLength(d2, r2, d1, r1);
    var u := d1 + r1;
    assert d1 == u[..|d1|] && d2 == u[..|d2|];
    DecimalInjective(a, b);
    CancelLeft(d1, r1, r2);
  }

  lemma IntUnique(a: int, b: int, r1: string, r2: string)
    requires IntText(a) + r1 == IntText(b) + r2
    requires Delimited(r1) && Delimited(r2)
    ensures a == b && r1 == r2
  {
    SameHead(IntText(a), r1, IntText(b), r2);
    if a < 0 {
      Regroup("-", Decimal(-a), r1);
      Regroup("-", Decimal(-b), r2);
      CancelLeft("-", Decimal(-a) + r1, Decimal(-b) + r2);
      DecimalUnique(-a, -b, r1, r2);
    } else {
      DecimalUnique(a, b, r1, r2);
    }
  }

  // ------------------------------------------------------------ documents

  /** The canonical text of a value without byte strings. */
  function Dumps(v: Value): (s: string)
    requires NoBytes(v)
    ensures s != ""
    decreases v, 0
  {
    match v
    case Null => "null"
    case Bool(b) => if b then "true" else "false"
    case Int(n) => IntText(n)
    case Str(s) => Quote(s)
    case List(items) => "[" + ListTail(items, true)
    case Tuple(items) => "[" + ListTail(items, true)
    case Dict(fields) => "{" + DictTail(SortSet(fields.Keys), v, true)
  }

  function ListTail(items: seq<Value>, first: bool): (s: string)
    requires forall i :: 0 <= i < |items| ==> NoBytes(items[i])
    ensures s != ""
    decreases items, 1
  {
    if items == [] then "]"
    else (if first then "" else ",") + Dumps(items[0]) + ListTail(items[1..], false)
  }

  function DictTail(keys: seq<string>, v: Value, first: bool): (s: string)
    requires v.Dict? && NoBytes(v) && forall k :: k in keys ==> k in v.fields
    ensures s != ""
    decreases v, 0, |keys|
  {
    if keys == [] then "}"
    else
      (if first then "" else ",") + Quote(keys[0]) + ":" + Dumps(v.fields[keys[0]])
      + DictTail(keys[1..], v, false)
  }

  lemma DumpsHead(v: Value)
    requires NoBytes(v)
    ensures
      var c := Dumps(v)[0];
      match v
      case Null => c == 'n'
      case Bool(b) => c == (if b then 't' else 'f')
      case Int(n) => c == '-' || IsDigit(c)
      case Str(_) => c == '\"'
      case Dict(_) => c == '{'
      case _ => c == '['
  {
  }

  /** Two encodings that start the same text are encodings of one value. */
  lemma {:induction false} DumpsUnique(v: Value, w: Value, r1: string, r2: string)
    requires Plain(v) && Plain(w) && NoBytes(v) && NoBytes(w)
    requires Dumps(v) + r1 == Dumps(w) + r2
    requires Delimited(r1) && Delimited(r2)
    ensures v == w && r1 == r2
    decreases v, 2
  {
    DumpsHead(v);
    DumpsHead(w);
    SameHead(Dumps(v), r1, Dumps(w), r2);
    match v
    case Int(n) => IntUnique(n, w.n, r1, r2);
    case Str(s) => QuoteUnique(s, w.s, r1, r2);
    case List(items) =>
      Regroup("[", ListTail(items, true), r1);
      Regroup("[", ListTail(w.items, true), r2);
      CancelLeft("[", ListTail(items, true) + r1, ListTail(w.items, true) + r2);
      ListTailUnique(items, w.items, true, r1, r2);
    case Dict(fields) => DictUnique(v, w, r1, r2);
    case _ => CancelLeft(Dumps(v), r1, r2);
  }

  lemma {:induction false} DictUnique(v: Value, w: Value, r1: string, r2: string)
    requires v.Dict? && w.Dict?
    requires Plain(v) && Plain(w) && NoBytes(v) && NoBytes(w)
    requires Dumps(v) + r1 == Dumps(w) + r2
    ensures v == w && r1 == r2
    decreases v, 1
  {
    var ks, ls := SortSet(v.fields.Keys), SortSet(w.fields.Keys);
    Regroup("{", DictTail(ks, v, true), r1);
    Regroup("{", DictTail(ls, w, true), r2);
    CancelLeft("{", DictTail(ks, v, true) + r1, DictTail(ls, w, true) + r2);
    DictTailUnique(ks, ls, v, w, true, r1, r2);
    assert forall k :: k in v.fields.Keys <==> k in ks;
    assert forall k :: k in w.fields.Keys <==> k in ls;
    assert v.fields.Keys == w.fields.Keys;
    assert v.fields == w.fields;
  }

  /** A separator, an item and the rest of a list, split apart. */
  lemma PeelItem(sep: string, d: string, y: string, r: string, d': string, y': string, r': string)
    requires sep + d + y + r == sep + d' + y' + r'
    ensures d + (y + r) == d' + (y' + r')
  {
    assert sep + d + y + r == sep + (d + (y + r));
    assert sep + d' + y' + r' == sep + (d' + (y' + r'));
    CancelLeft(sep, d + (y + r), d' + (y' + r'));
  }

  lemma {:induction false} ListTailUnique(xs: seq<Value>, ys: seq<Value>, first: bool, r1: string, r2: string)
    requires forall i :: 0 <= i < |xs| ==> Plain(xs[i]) && NoBytes(xs[i])
    requires forall i :: 0 <= i < |ys| ==> Plain(ys[i]) && NoBytes(ys[i])
    requires ListTail(xs, first) + r1 == ListTail(ys, first) + r2
    ensures xs == ys && r1 == r2
    decreases xs, 1
  {
    ListTailHead(xs, first);
    ListTailHead(ys, first);
    SameHead(ListTail(xs, first), r1, ListTail(ys, first), r2);
    if xs == [] {
      CancelLeft("]", r1, r2);
    } else {
      var t1, t2 := ListTail(xs[1..], false), ListTail(ys[1..], false);
      PeelItem(if first then "" else ",", Dumps(xs[0]), t1, r1, Dumps(ys[0]), t2, r2);
      ListTailHead(xs[1..], false);
      ListTailHead(ys[1..], false);
      DumpsUnique(xs[0], ys[0], t1 + r1, t2 + r2);
      ListTailUnique(xs[1..], ys[1..], false, r1, r2);
      assert xs == [xs[0]] + xs[1..] && ys == [ys[0]] + ys[1..];
    }
  }

  lemma ListTailHead(xs: seq<Value>, first: bool)
    requires forall i :: 0 <= i < |xs| ==> NoBytes(xs[i])
    ensures ListTail(xs, first)[0] == ']' <==> xs == []
    ensures xs == [] ==> ListTail(xs, first) == "]"
    ensures !first ==> Delimited(ListTail(xs, first))
  {
    if xs != [] { DumpsHead(xs[0]); }
  }

  lemma PeelEntry(sep: string, q: string, d: string, y: string, r: string,
                  q': string, d': string, y': string, r': string)
    requires sep + q + ":" + d + y + r == sep + q' + ":" + d' + y' + r'
    ensures q + (":" + (d + (y + r))) == q' + (":" + (d' + (y' + r')))
  {
    assert sep + q + ":" + d + y + r == sep + (q + (":" + (d + (y + r))));
    assert sep + q' + ":" + d' + y' + r' == sep + (q' + (":" + (d' + (y' + r'))));
    CancelLeft(sep, q + (":" + (d + (y + r))), q' + (":" + (d' + (y' + r'))));
  }

  lemma DictTailHead(ks: seq<string>, v: Value, first: bool)
    requires v.Dict? && NoBytes(v) && forall k :: k in ks ==> k in v.fields
    ensures DictTail(ks, v, first)[0] == '}' <==> ks == []
    ensures ks == [] ==> DictTail(ks, v, first) == "}"
    ensures !first ==> Delimited(DictTail(ks, v, first))
  {
  }

  lemma {:induction false} DictTailUnique(
      ks: seq<string>, ls: seq<string>, v: Value, w: Value, first: bool, r1: string, r2: string)
    requires v.Dict? && Plain(v) && NoBytes(v) && forall k :: k in ks ==> k in v.fields
    requires w.Dict? && Plain(w) && NoBytes(w) && forall k :: k in ls ==> k in w.fields
    requires DictTail(ks, v, first) + r1 == DictTail(ls, w, first) + r2
    ensures ks == ls && r1 == r2
    ensures forall k :: k in ks ==> v.fields[k] == w.fields[k]
    decreases v, 0, |ks|
  {
    DictTailHead(ks, v, first);
    DictTailHead(ls, w, first);
    SameHead(DictTail(ks, v, first), r1, DictTail(ls, w, first), r2);
    if ks == [] {
      CancelLeft("}", r1, r2);
    } else {
      var a, b := v.fields[ks[0]], w.fields[ls[0]];
      var t1, t2 := DictTail(ks[1..], v, false), DictTail(ls[1..], w, false);
      PeelEntry(if first then "" else ",", Quote(ks[0]), Dumps(a), t1, r1, Quote(ls[0]), Dumps(b), t2, r2);
      QuoteUnique(ks[0], ls[0], ":" + (Dumps(a) + (t1 + r1)), ":" + (Dumps(b) + (t2 + r2)));
      CancelLeft(":", Dumps(a) + (t1 + r1), Dumps(b) + (t2 + r2));
      DictTailHead(ks[1..], v, false);
      DictTailHead(ls[1..], w, false);
      DumpsUnique(a, b, t1 + r1, t2 + r2);
      DictTailUnique(ks[1..], ls[1..], v, w, false, r1, r2);
      assert ks == [ks[0]] + ks[1..] && ls == [ls[0]] + ls[1..];
    }
  }

  /** On decoded documents the canonical text determines the value. */
  lemma DumpsInjective(v: Value, w: Value)
    requires Plain(v) && Plain(w) && NoBytes(v) && NoBytes(w)
    requires Dumps(v) == Dumps(w)
    ensures v == w
  {
    assert Dumps(v) + "" == Dumps(w) + "";
    DumpsUnique(v, w, "", "");
  }

  /** Tuples are written as lists. */
  lemma {:induction false} DumpsReload(v: Value)
    requires NoBytes(v)
    ensures NoBytes(Reload(v)) && Dumps(Reload(v)) == Dumps(v)
    decreases v, 0
  {
    ReloadPlain(v);
    ReloadFixed(Reload(v));
    match v
    case List(items) => ListTailReload(items, true);
    case Tuple(items) => ListTailReload(items, true);
    case Dict(fields) =>
      assert Reload(v).fields.Keys == fields.Keys;
      DictTailReload(SortSet(fields.Keys), v, true);
    case _ =>
  }

  lemma {:induction false} ListTailReload(items: seq<Value>, first: bool)
    requires forall i :: 0 <= i < |items| ==> NoBytes(items[i])
    ensures
      var ys := seq(|items|, i requires 0 <= i < |items| => Reload(items[i]));
      (forall i :: 0 <= i < |ys| ==> NoBytes(ys[i])) && ListTail(ys, first) == ListTail(items, first)
    decreases items, 1
  {
    var ys := seq(|items|, i requires 0 <= i < |items| => Reload(items[i]));
    forall i | 0 <= i < |items| ensures NoBytes(ys[i]) {
      ReloadPlain(items[i]);
      ReloadFixed(ys[i]);
    }
    if items != [] {
      var rest := items[1..];
      DumpsReload(items[0]);
      ListTailReload(rest, false);
      assert ys[1..] == seq(|rest|, i requires 0 <= i < |rest| => Reload(rest[i]));
    }
  }

  lemma {:induction false} DictTailReload(keys: seq<string>, v: Value, first: bool)
    requires v.Dict? && NoBytes(v) && forall k :: k in keys ==> k in v.fields
    requires NoBytes(Reload(v))
    ensures DictTail(keys, Reload(v), first) == DictTail(keys, v, first)
    decreases v, 0, |keys|
  {
    if keys != [] {
      DumpsReload(v.fields[keys[0]]);
      DictTailReload(keys[1..], v, false);
    }
  }
}
