/**
 The canonical text piece by piece, as RFC 8259 spells it (sections 3 to 7): the literals, the numbers, the escapes,
 and how arrays and objects are put together. With the injectivity of the text this fixes what is hashed.
 */
module CanonicalForms {
  import opened Text
  import opened Values
  import opened CanonicalJson

  // ------------------------------------------------------------ scalars

  lemma Literals()
    ensures Dumps(Null) == "null" && Dumps(Bool(true)) == "true" && Dumps(Bool(false)) == "false"
  {
  }

  /** An integer is its decimal digits without leading zeros, after a minus sign if it is negative. */
  lemma Integers(n: int)
    ensures var t := Dumps(Int(n));
      var digits := if n < 0 then t[1..] else t;
      && (n < 0 ==> t[0] == '-')
      && digits != "" && (forall i :: 0 <= i < |digits| ==> '0' <= digits[i] <= '9')
      && DecimalValue(digits) == (if n < 0 then -n else n)
      && (n != 0 ==> digits[0] != '0')
  {
    var size: nat := if n < 0 then -n else n;
    DecimalRoundTrip(size);
    if n != 0 { NoLeadingZero(size); }
  }

  lemma {:induction false} NoLeadingZero(n: nat)
    requires n > 0
    ensures Decimal(n)[0] != '0'
  {
    if n >= 10 { NoLeadingZero(n / 10); }
  }

  // ------------------------------------------------------------ strings

  function HexValue(c: char): int
  {
    if '0' <= c <= '9' then c as int - '0' as int else if 'a' <= c <= 'f' then c as int - 'a' as int + 10 else -1
  }

  /** Four hexadecimal digits in lower case that stand for n. */
  predicate Hexadecimal(s: string, n: int)
  {
    && |s| == 4 && (forall i :: 0 <= i < 4 ==> 0 <= HexValue(s[i]) < 16)
    && n == 4096 * HexValue(s[0]) + 256 * HexValue(s[1]) + 16 * HexValue(s[2]) + HexValue(s[3])
  }

  lemma DigitReads(d: nat)
    requires d < 16
    ensures HexValue(HexDigit(d)) == d
  {
  }

  lemma HexReads(n: nat)
    requires n < 0x10000
    ensures Hexadecimal(Hex4(n), n)
  {
    var n1 := n / 0x10;
    var n2 := n1 / 0x10;
    DigitReads(n2 / 0x10);
    DigitReads(n2 % 0x10);
    DigitReads(n1 % 0x10);
    DigitReads(n % 0x10);
    assert n == 16 * n1 + n % 16 && n1 == 16 * n2 + n1 % 16 && n2 == 16 * (n2 / 16) + n2 % 16;
  }

  /** The escape of one character: short where there is one, itself if printable ASCII, otherwise its code units. */
  predicate Escapes(c: char, s: string)
  {
    if c == '\"' then s == "\\\"" else if c == '\\' then s == "\\\\"
    else if c == '\n' then s == "\\n" else if c == '\r' then s == "\\r" else if c == '\t' then s == "\\t"
    else if c as int == 12 then s == "\\f" else if c as int == 8 then s == "\\b"
    else if 32 <= c as int < 127 then s == [c]
    else if c as int < 0x10000 then |s| == 6 && s[..2] == "\\u" && Hexadecimal(s[2..], c as int)
    else
      && |s| == 12 && s[..2] == "\\u" && s[6..8] == "\\u"
      && exists high, low ::
           && Hexadecimal(s[2..6], high) && Hexadecimal(s[8..], low)
           && 0xD800 <= high < 0xDC00 && 0xDC00 <= low < 0xE000
           && c as int == 0x10000 + (high - 0xD800) * 0x400 + (low - 0xDC00)
  }

  lemma EscapesExactly(c: char)
    ensures Escapes(c, EscapeChar(c))
  {
    hide Hex4, Hexadecimal;
    if c as int < 0x10000 {
      HexReads(c as int);
    } else {
      var n := c as int - 0x10000;
      var high, low := 0xD800 + n / 0x400, 0xDC00 + n % 0x400;
      HexReads(high);
      HexReads(low);
      var s := EscapeChar(c);
      assert s == UnicodeEscape(high) + UnicodeEscape(low);
      assert s[2..6] == Hex4(high) && s[8..] == Hex4(low);
    }
  }

  /** A string literal is the escapes of its characters between quotes. */
  lemma Strings(c: char, s: string)
    ensures Quote("") == "\"\""
    ensures Quote([c] + s) == "\"" + EscapeChar(c) + Quote(s)[1..]
  {
    assert ([c] + s)[1..] == s;
    assert StringTail("") == "\"";
  }

  // ------------------------------------------------------------ arrays and objects

  /** The items of an array, separated by commas without spaces. */
  lemma Arrays(v: Value, rest: seq<Value>)
    requires NoBytes(List([v] + rest))
    ensures NoBytes(v) && NoBytes(List(rest)) && Dumps(List([])) == "[]"
    ensures Dumps(List([v] + rest)) == "[" + Dumps(v) + (if rest == [] then "]" else "," + Dumps(List(rest))[1..])
  {
    var items := [v] + rest;
    ItemsPlain(v, rest);
    hide Dumps, ListTail, NoBytes;
    ArrayText([]);
    ArrayText(items);
    ArrayText(rest);
    RestOfArray(rest);
    FirstItem(v, rest);
    var tail := ListTail(rest, false);
    assert "[" + (Dumps(v) + tail) == "[" + Dumps(v) + tail;
  }

  lemma ItemsPlain(v: Value, rest: seq<Value>)
    requires NoBytes(List([v] + rest))
    ensures NoBytes(v) && NoBytes(List(rest)) && NoBytes(List([])) && forall i :: 0 <= i < |rest| ==> NoBytes(rest[i])
    ensures ([v] + rest)[0] == v && ([v] + rest)[1..] == rest
  {
    var items := [v] + rest;
    assert items[0] == v && items[1..] == rest;
    assert forall i :: 0 <= i < |rest| ==> rest[i] == items[i + 1];
  }

  lemma ArrayText(items: seq<Value>)
    requires NoBytes(List(items))
    ensures Dumps(List(items)) == "[" + ListTail(items, true) && Dumps(List(items))[1..] == ListTail(items, true)
    ensures ListTail([], true) == "]"
  {
  }

  lemma FirstItem(v: Value, rest: seq<Value>)
    requires NoBytes(List([v] + rest))
    ensures NoBytes(v) && NoBytes(List(rest)) && ListTail([v] + rest, true) == Dumps(v) + ListTail(rest, false)
  {
    ItemsPlain(v, rest);
    hide Dumps;
    assert "" + Dumps(v) == Dumps(v);
  }

  lemma RestOfArray(rest: seq<Value>)
    requires forall i :: 0 <= i < |rest| ==> NoBytes(rest[i])
    ensures ListTail(rest, false) == if rest == [] then "]" else "," + ListTail(rest, true)
  {
    hide Dumps;
    if rest != [] {
      var tail := ListTail(rest[1..], false);
      assert "" + Dumps(rest[0]) == Dumps(rest[0]);
      assert "," + Dumps(rest[0]) + tail == "," + (Dumps(rest[0]) + tail);
    }
  }

  /** The members of an object, in the order of their keys' code points. */
  lemma Objects(m: map<string, Value>, k: string)
    requires NoBytes(Dict(m)) && k in m && IsMinimum(k, m.Keys)
    ensures NoBytes(m[k]) && NoBytes(Dict(m - {k})) && Dumps(Dict(map[])) == "{}"
    ensures Dumps(Dict(m))
         == "{" + Quote(k) + ":" + Dumps(m[k]) + (if m.Keys == {k} then "}" else "," + Dumps(Dict(m - {k}))[1..])
  {
    hide Quote, Dumps, DictTail, NoBytes, SortSet, IsMinimum, Less;
    var rest := m - {k};
    var keys := SortSet(m.Keys);
    SortedFrom(m.Keys, k);
    assert rest.Keys == m.Keys - {k};
    RestNoBytes(m, k);
    ObjectText(map[]);
    ObjectText(m);
    ObjectText(rest);
    MembersElsewhere(keys[1..], Dict(m), Dict(rest), false);
    RestOfObject(keys[1..], Dict(rest));
    FirstMember(keys, Dict(m));
    SortedEmpty(rest.Keys);
    Together(Quote(k), Dumps(m[k]), DictTail(keys[1..], Dict(m), false));
  }

  lemma Together(q: string, d: string, tail: string)
    ensures "{" + (q + ":" + d + tail) == "{" + q + ":" + d + tail
  {
  }

  lemma RestNoBytes(m: map<string, Value>, k: string)
    requires NoBytes(Dict(m)) && k in m
    ensures NoBytes(m[k]) && NoBytes(Dict(m - {k})) && NoBytes(Dict(map[]))
    ensures m.Keys == {k} <==> (m - {k}).Keys == {}
  {
  }

  lemma SortedEmpty(s: set<string>)
    ensures SortSet(s) == [] <==> s == {}
  {
    if s != {} {
      var x :| x in s;
      assert x in SortSet(s);
    }
  }

  lemma ObjectText(m: map<string, Value>)
    requires NoBytes(Dict(m))
    ensures Dumps(Dict(m)) == "{" + DictTail(SortSet(m.Keys), Dict(m), true)
    ensures Dumps(Dict(m))[1..] == DictTail(SortSet(m.Keys), Dict(m), true)
    ensures m == map[] ==> Dumps(Dict(m)) == "{}"
  {
    hide SortSet;
    SortedEmpty(m.Keys);
  }

  lemma FirstMember(keys: seq<string>, v: Value)
    requires v.Dict? && NoBytes(v) && keys != [] && forall k :: k in keys ==> k in v.fields
    ensures DictTail(keys, v, true) == Quote(keys[0]) + ":" + Dumps(v.fields[keys[0]]) + DictTail(keys[1..], v, false)
  {
    hide Quote, Dumps;
    assert "" + Quote(keys[0]) == Quote(keys[0]);
  }

  lemma SortedFrom(s: set<string>, k: string)
    requires IsMinimum(k, s)
    ensures SortSet(s) != [] && SortSet(s)[0] == k && SortSet(s)[1..] == SortSet(s - {k})
  {
    MinimumUnique(s);
  }

  lemma {:induction false} MembersElsewhere(keys: seq<string>, v: Value, w: Value, first: bool)
    requires v.Dict? && w.Dict? && NoBytes(v) && NoBytes(w)
    requires forall k :: k in keys ==> k in v.fields && k in w.fields && v.fields[k] == w.fields[k]
    ensures DictTail(keys, v, first) == DictTail(keys, w, first)
  {
    hide Quote, Dumps;
    if keys != [] { MembersElsewhere(keys[1..], v, w, false); }
  }

  lemma RestOfObject(keys: seq<string>, v: Value)
    requires v.Dict? && NoBytes(v) && forall k :: k in keys ==> k in v.fields
    ensures DictTail(keys, v, false) == if keys == [] then "}" else "," + DictTail(keys, v, true)
  {
    hide Quote, Dumps;
    if keys != [] {
      var (q, d, tail) := (Quote(keys[0]), Dumps(v.fields[keys[0]]), DictTail(keys[1..], v, false));
      assert "" + q == q;
      assert "," + q + ":" + d + tail == "," + (q + ":" + d + tail);
    }
  }
}
