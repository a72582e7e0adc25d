/**
 Canonical JSON: internal/canon/canon.go.

 Text is a sequence of Unicode characters, the way the source ranges over a string; sorting by
 character is sorting by UTF-8 bytes. Numbers are the 64-bit integers.

 `Render` says what the encoder appends. A reference parser, which knows nothing of the encoder,
 undoes it, so no two values share an encoding.
 */
module Canon {
  import opened Model
  import opened Decimal
  import opened Keys
  import opened Sorting
  import opened Text
  import Intervals

  newtype int64 = x: int | -0x8000_0000_0000_0000 <= x < 0x8000_0000_0000_0000

  datatype Value =
    | Null | Bool(b: bool) | Number(i: int64) | Str(s: string)
    | Array(items: seq<Value>) | Object(members: map<string, Value>)

  // ----- strings -----

  const QUOTE := '\"'
  const BACKSLASH := '\\'
  const BACKSPACE: char := 8 as char
  const FORM_FEED: char := 12 as char
  const REPLACEMENT: char := 0xFFFD as char

  function HexDigit(n: nat): char
    requires n < 16
  {
    "0123456789abcdef"[n]
  }

  function Escape(c: char): string {
    if c == QUOTE then [BACKSLASH, QUOTE]
    else if c == BACKSLASH then [BACKSLASH, BACKSLASH]
    else if c == BACKSPACE then [BACKSLASH, 'b']
    else if c == FORM_FEED then [BACKSLASH, 'f']
    else if c == '\n' then [BACKSLASH, 'n']
    else if c == '\r' then [BACKSLASH, 'r']
    else if c == '\t' then [BACKSLASH, 't']
    else if c as int < 0x20 then [BACKSLASH, 'u', '0', '0', HexDigit(c as int / 16), HexDigit(c as int % 16)]
    else if c == REPLACEMENT then [BACKSLASH, 'u', 'f', 'f', 'f', 'd']
    else [c]
  }

  function Escapes(s: string): string { if s == [] then [] else Escape(s[0]) + Escapes(s[1..]) }

  function Quoted(s: string): string { [QUOTE] + Escapes(s) + [QUOTE] }

  // ----- values -----

  ghost function Render(v: Value): string
    decreases v, 1, 0
  {
    match v
    case Null => "null"
    case Bool(b) => if b then "true" else "false"
    case Number(i) => Integer(i as int)
    case Str(s) => Quoted(s)
    case Array(_) => "[" + ItemsFrom(v, 0) + "]"
    case Object(m) => "{" + MembersFrom(v, KeyOrder(m.Keys), 0) + "}"
  }

  /** The items from position `i`, each but the first of all after a comma. */
  ghost function ItemsFrom(v: Value, i: nat): string
    requires v.Array? && i <= |v.items|
    decreases v, 0, |v.items| - i
  {
    if i == |v.items| then "" else (if i > 0 then "," else "") + Render(v.items[i]) + ItemsFrom(v, i + 1)
  }

  ghost function MembersFrom(v: Value, keys: seq<string>, i: nat): string
    requires v.Object? && i <= |keys| && forall k | k in keys :: k in v.members
    decreases v, 0, |keys| - i
  {
    if i == |keys| then ""
    else (if i > 0 then "," else "") + Quoted(keys[i]) + ":" + Render(v.members[keys[i]]) + MembersFrom(v, keys, i + 1)
  }

  // ----- the encoder -----

  class Buffer {
    var text: string

    constructor ()
      ensures text == ""
    {
      text := "";
    }

    method Append(s: string)
      modifies this
      ensures text == old(text) + s
    {
      text := text + s;
    }

    method WriteText(s: string)
      modifies this
      ensures text == old(text) + Quoted(s)
    {
      hide Escape;
      Append([QUOTE]);
      for i := 0 to |s|
        invariant text == old(text) + [QUOTE] + Escapes(s[..i])
      {
        EscapesAppend(s[..i], s[i]);
        assert s[..i + 1] == s[..i] + [s[i]];
        WriteChar(s[i]);
        Joined(old(text) + [QUOTE], Escapes(s[..i]), Escape(s[i]));
      }
      assert s[..|s|] == s;
      Append([QUOTE]);
    }

    method WriteChar(c: char)
      modifies this
      ensures text == old(text) + Escape(c)
    {
      if c == QUOTE {
        Append("\\\"");
      } else if c == BACKSLASH {
        Append("\\\\");
      } else if c == BACKSPACE {
        Append("\\b");
      } else if c == FORM_FEED {
        Append("\\f");
      } else if c == '\n' {
        Append("\\n");
      } else if c == '\r' {
        Append("\\r");
      } else if c == '\t' {
        Append("\\t");
      } else if c as int < 0x20 {
        Append("\\u00");
        Append([HexDigit(c as int / 16)]);
        Append([HexDigit(c as int % 16)]);
      } else if c == REPLACEMENT {
        Append("\\ufffd");
      } else {
        Append([c]);
      }
    }

    /** Appends the value; a map's members go in key order, however the keys were gathered. */
    method Write(v: Value)
      modifies this
      ensures text == old(text) + Render(v)
      decreases v, 1, 0
    {
      hide Quoted, ItemsFrom, MembersFrom, Integer;
      match v
      case Null => Append("null");
      case Bool(b) => if b { Append("true"); } else { Append("false"); }
      case Number(i) => Append(Integer(i as int));
      case Str(s) => WriteText(s);
      case Array(_) =>
        Append("[");
        WriteItems(v);
        Append("]");
        Wrapped(old(text), "[", ItemsFrom(v, 0), "]");
      case Object(m) =>
        var keys := Listed(m.Keys);
        ListsUnique(keys, KeyOrder(m.Keys), m.Keys);
        Append("{");
        WriteMembers(v, keys);
        Append("}");
        Wrapped(old(text), "{", MembersFrom(v, keys, 0), "}");
    }

    method WriteItems(v: Value)
      requires v.Array?
      modifies this
      ensures text == old(text) + ItemsFrom(v, 0)
      decreases v, 0, 0
    {
      hide Render;
      for i := 0 to |v.items|
        invariant text + ItemsFrom(v, i) == old(text) + ItemsFrom(v, 0)
      {
        ghost var before := text;
        if i > 0 {
          Append(",");
        }
        Write(v.items[i]);
        assert before + ItemsFrom(v, i) == text + ItemsFrom(v, i + 1);
      }
    }

    method WriteMembers(v: Value, keys: seq<string>)
      requires v.Object? && forall k | k in keys :: k in v.members
      modifies this
      ensures text == old(text) + MembersFrom(v, keys, 0)
      decreases v, 0, 0
    {
      hide Render, Quoted;
      for i := 0 to |keys|
        invariant text + MembersFrom(v, keys, i) == old(text) + MembersFrom(v, keys, 0)
      {
        ghost var before := text;
        if i > 0 {
          Append(",");
        }
        WriteText(keys[i]);
        Append(":");
        Write(v.members[keys[i]]);
        assert before + MembersFrom(v, keys, i) == text + MembersFrom(v, keys, i + 1);
      }
    }
  }

  lemma {:induction false} EscapesAppend(s: string, c: char)
    ensures Escapes(s + [c]) == Escapes(s) + Escape(c)
  {
    hide Escape;
    if s == [] {
      assert [c][1..] == [];
    } else {
      assert (s + [c])[1..] == s[1..] + [c];
      EscapesAppend(s[1..], c);
    }
  }

  lemma Joined(a: string, b: string, c: string)
    ensures (a + b) + c == a + (b + c)
  {}

  lemma Wrapped(before: string, open: string, inner: string, close: string)
    ensures ((before + open) + inner) + close == before + (open + inner + close)
  {}

  // ----- a parser that knows nothing of the encoder -----

  function HexValue(c: char): Option<int> {
    if '0' <= c <= '9' then Some(c as int - '0' as int)
    else if 'a' <= c <= 'f' then Some(c as int - 'a' as int + 10)
    else if 'A' <= c <= 'F' then Some(c as int - 'A' as int + 10)
    else None
  }

  /** Four hex digits, as one character; a lone surrogate is none. */
  function Hex4(s: string): Option<char>
    requires |s| >= 4
  {
    var a, b, c, d := HexValue(s[0]), HexValue(s[1]), HexValue(s[2]), HexValue(s[3]);
    if a.None? || b.None? || c.None? || d.None? then None
    else
      var code := a.value * 4096 + b.value * 256 + c.value * 16 + d.value;
      if 0 <= code < 0xD800 || 0xE000 <= code < 0x10000 then Some(code as char) else None
  }

  /** One character of a string literal and how long it was written. */
  function ReadChar(s: string): Option<(char, nat)>
    requires s != []
  {
    if s[0] != BACKSLASH then if s[0] as int < 0x20 || s[0] == QUOTE then None else Some((s[0], 1))
    else if |s| < 2 then None
    else
      match s[1]
      case '\"' => Some((QUOTE, 2))
      case '\\' => Some((BACKSLASH, 2))
      case '/' => Some(('/', 2))
      case 'b' => Some((BACKSPACE, 2))
      case 'f' => Some((FORM_FEED, 2))
      case 'n' => Some(('\n', 2))
      case 'r' => Some(('\r', 2))
      case 't' => Some(('\t', 2))
      case 'u' => if |s| < 6 || Hex4(s[2..]).None? then None else Some((Hex4(s[2..]).value, 6))
      case _ => None
  }

  /** The rest of a string literal, up to its closing quote. */
  function ReadText(s: string): (r: Option<(string, string)>)
    ensures r.Some? ==> |r.value.1| < |s|
    decreases |s|
  {
    if s == [] then None
    else if s[0] == QUOTE then Some(("", s[1..]))
    else
      match ReadChar(s)
      case None => None
      case Some((c, n)) =>
        if n == 0 || n > |s| then None
        else
          match ReadText(s[n..])
          case None => None
          case Some((text, rest)) => Some(([c] + text, rest))
  }

  function ReadInteger(s: string): (r: Option<(Value, string)>)
    ensures r.Some? ==> |r.value.1| < |s|
  {
    var negative := s != [] && s[0] == '-';
    var t := if negative then s[1..] else s;
    if t == [] || !IsDigit(t[0]) then None
    else
      var (n, rest) := ReadDigits(t[1..], ValueOf(t[0]));
      var i := if negative then 0 - n as int else n as int;
      if -0x8000_0000_0000_0000 <= i < 0x8000_0000_0000_0000 then Some((Number(i as int64), rest)) else None
  }

  function ReadValue(s: string): (r: Option<(Value, string)>)
    ensures r.Some? ==> |r.value.1| < |s|
    decreases |s|, 0
  {
    if s == [] then None
    else if s[0] == QUOTE then
      match ReadText(s[1..])
      case None => None
      case Some((text, rest)) => Some((Str(text), rest))
    else if s[0] == '[' then
      if StartsWith(s[1..], "]") then Some((Array([]), s[2..]))
      else
        match ReadItems(s[1..])
        case None => None
        case Some((items, rest)) => Some((Array(items), rest))
    else if s[0] == '{' then
      if StartsWith(s[1..], "}") then Some((Object(map[]), s[2..]))
      else
        match ReadMembers(s[1..])
        case None => None
        case Some((members, rest)) => Some((Object(members), rest))
    else if StartsWith(s, "null") then Some((Null, s[4..]))
    else if StartsWith(s, "true") then Some((Bool(true), s[4..]))
    else if StartsWith(s, "false") then Some((Bool(false), s[5..]))
    else ReadInteger(s)
  }

  function ReadItems(s: string): (r: Option<(seq<Value>, string)>)
    ensures r.Some? ==> |r.value.1| < |s|
    decreases |s|, 1
  {
    match ReadValue(s)
    case None => None
    case Some((v, rest)) =>
      if rest == [] then None
      else if rest[0] == ']' then Some(([v], rest[1..]))
      else if rest[0] != ',' then None
      else
        match ReadItems(rest[1..])
        case None => None
        case Some((items, rest')) => Some(([v] + items, rest'))
  }

  function ReadMembers(s: string): (r: Option<(map<string, Value>, string)>)
    ensures r.Some? ==> |r.value.1| < |s|
    decreases |s|, 1
  {
    if s == [] || s[0] != QUOTE then None
    else
      match ReadText(s[1..])
      case None => None
      case Some((key, rest)) =>
        if rest == [] || rest[0] != ':' then None
        else
          match ReadValue(rest[1..])
          case None => None
          case Some((v, rest')) =>
            if rest' == [] then None
            else if rest'[0] == '}' then Some((map[key := v], rest'[1..]))
            else if rest'[0] != ',' then None
            else
              match ReadMembers(rest'[1..])
              case None => None
              case Some((members, rest'')) => Some((map[key := v] + members, rest''))
  }

  // ----- the parser undoes the encoder -----

  lemma HexBack(n: nat)
    requires n < 16
    ensures HexValue(HexDigit(n)) == Some(n)
  {}

  lemma CharBack(c: char, tail: string)
    ensures Escape(c) != [] && Escape(c)[0] != QUOTE
    ensures ReadChar(Escape(c) + tail) == Some((c, |Escape(c)|))
  {
    var s := Escape(c) + tail;
    if c as int < 0x20 && |Escape(c)| == 6 {
      HexBack(c as int / 16);
      HexBack(c as int % 16);
      assert s[2..][0] == '0' && s[2..][1] == '0';
      assert s[2..][2] == HexDigit(c as int / 16) && s[2..][3] == HexDigit(c as int % 16);
      assert c as int == c as int / 16 * 16 + c as int % 16;
    } else if c == REPLACEMENT {
      assert s[2..][0] == 'f' && s[2..][1] == 'f' && s[2..][2] == 'f' && s[2..][3] == 'd';
    }
  }

  lemma {:induction false} TextBack(s: string, tail: string)
    ensures ReadText(Escapes(s) + ([QUOTE] + tail)) == Some((s, tail))
  {
    hide Escape, ReadChar;
    if s == [] {
      assert Escapes(s) + ([QUOTE] + tail) == [QUOTE] + tail;
    } else {
      var rest := Escapes(s[1..]) + ([QUOTE] + tail);
      var all := Escapes(s) + ([QUOTE] + tail);
      assert all == Escape(s[0]) + rest;
      CharBack(s[0], rest);
      assert all[|Escape(s[0])|..] == rest;
      TextBack(s[1..], tail);
      assert s == [s[0]] + s[1..];
    }
  }

  lemma QuotedBack(s: string, tail: string)
    ensures Quoted(s) + tail == [QUOTE] + (Escapes(s) + ([QUOTE] + tail))
    ensures (Quoted(s) + tail)[0] == QUOTE && ReadText((Quoted(s) + tail)[1..]) == Some((s, tail))
  {
    hide ReadText, Escapes;
    TextBack(s, tail);
    assert (Quoted(s) + tail)[1..] == Escapes(s) + ([QUOTE] + tail);
  }

  lemma OtherStart(s: string, p: string)
    requires s != [] && p != [] && s[0] != p[0]
    ensures !StartsWith(s, p)
  {
    assert |p| <= |s| ==> s[..|p|][0] == s[0];
  }

  /** What may follow a value: nothing, or something that cannot continue a number. */
  predicate Ends(tail: string) { tail == [] || !IsDigit(tail[0]) }

  lemma NaturalBack(n: nat, tail: string)
    requires Ends(tail)
    ensures Natural(n) != [] && IsDigit(Natural(n)[0])
    ensures var s := Natural(n) + tail; ReadDigits(s[1..], ValueOf(s[0])) == (n, tail)
  {
    ReadNatural(n, tail);
    var s := Natural(n) + tail;
    assert ReadDigits(s, 0) == ReadDigits(s[1..], ValueOf(s[0]));
  }

  lemma IntegerBack(i: int64, tail: string)
    requires Ends(tail)
    ensures ReadValue(Integer(i as int) + tail) == Some((Number(i), tail))
  {
    hide Natural, ReadDigits;
    var n: nat := if i < 0 then -(i as int) else i as int;
    NaturalBack(n, tail);
    var s := Integer(i as int) + tail;
    assert s[0] == '-' || IsDigit(s[0]);
    OtherStart(s, "null");
    OtherStart(s, "true");
    OtherStart(s, "false");
    if i < 0 { assert s[1..] == Natural(n) + tail; }
  }

  /** A value begins with its own kind of character, never with one that closes a list. */
  lemma FirstCharacter(v: Value)
    ensures Render(v) != [] && Render(v)[0] != ']'
  {
    hide Escapes, ItemsFrom, MembersFrom;
    if v.Number? {
      var n: nat := if v.i < 0 then -(v.i as int) else v.i as int;
      NaturalBack(n, "");
    }
  }

  lemma {:induction false} ValueBack(v: Value, tail: string)
    requires Ends(tail)
    ensures ReadValue(Render(v) + tail) == Some((v, tail))
    decreases v, 1, 0
  {
    hide *;
    match v
    case Null => NullBack(tail);
    case Bool(b) => BoolBack(b, tail);
    case Number(i) => NumberBack(i, tail);
    case Str(t) => StrBack(t, tail);
    case Array(items) =>
      if items != [] { ItemsBack(v, 0, tail); }
      ArrayBack(v, tail);
    case Object(m) =>
      var keys := KeyOrder(m.Keys);
      KeysAreKeys(m, keys);
      if keys != [] { MembersBack(v, keys, 0, tail); }
      ObjectBack(v, keys, tail);
  }

  lemma NullBack(tail: string)
    ensures ReadValue(Render(Null) + tail) == Some((Null, tail))
  {
    var s := Render(Null) + tail;
    assert s[..4] == "null" && s[4..] == tail && s[0] == s[..4][0];
  }

  lemma BoolBack(b: bool, tail: string)
    ensures ReadValue(Render(Bool(b)) + tail) == Some((Bool(b), tail))
  {
    var s := Render(Bool(b)) + tail;
    if b {
      assert s[..4] == "true" && s[4..] == tail && s[..4][0] == s[0];
    } else {
      assert s[..5] == "false" && s[5..] == tail && s[..4][0] == s[0];
    }
  }

  lemma NumberBack(i: int64, tail: string)
    requires Ends(tail)
    ensures ReadValue(Render(Number(i)) + tail) == Some((Number(i), tail))
  {
    hide ReadValue, Integer;
    IntegerBack(i, tail);
  }

  lemma StrBack(t: string, tail: string)
    ensures ReadValue(Render(Str(t)) + tail) == Some((Str(t), tail))
  {
    hide Quoted, ReadText;
    QuotedBack(t, tail);
  }

  /** What `ReadItems` sees from item `i` on. */
  ghost function ItemsText(v: Value, i: nat, tail: string): string
    requires v.Array? && i < |v.items|
  {
    Render(v.items[i]) + (ItemsFrom(v, i + 1) + ("]" + tail))
  }

  lemma {:induction false} ItemsBack(v: Value, i: nat, tail: string)
    requires v.Array? && i < |v.items|
    ensures ReadItems(ItemsText(v, i, tail)) == Some((v.items[i..], tail))
    decreases v, 0, |v.items| - i
  {
    hide Render, ReadValue;
    var rest := ItemsFrom(v, i + 1) + ("]" + tail);
    if i + 1 == |v.items| {
      assert rest == [']'] + tail && rest[1..] == tail;
      ValueBack(v.items[i], rest);
      assert v.items[i..] == [v.items[i]];
    } else {
      var next := ItemsText(v, i + 1, tail);
      assert rest == [','] + next && rest[1..] == next;
      ValueBack(v.items[i], rest);
      ItemsBack(v, i + 1, tail);
      assert v.items[i..] == [v.items[i]] + v.items[i + 1..];
    }
  }

  lemma ArrayBack(v: Value, tail: string)
    requires v.Array?
    requires v.items != [] ==> ReadItems(ItemsText(v, 0, tail)) == Some((v.items, tail))
    ensures ReadValue(Render(v) + tail) == Some((v, tail))
  {
    hide ReadItems;
    var s := Render(v) + tail;
    assert s[0] == '[';
    if v.items == [] {
      assert s[1..] == "]" + tail && s[2..] == tail;
      assert s[1..][..1] == "]";
    } else {
      var inner := ItemsText(v, 0, tail);
      FirstCharacter(v.items[0]);
      OpensArray(v, tail);
      assert inner[0] == Render(v.items[0])[0];
      OtherStart(inner, "]");
    }
  }

  lemma OpensArray(v: Value, tail: string)
    requires v.Array? && v.items != []
    ensures (Render(v) + tail)[1..] == ItemsText(v, 0, tail)
  {
    var r, m := Render(v.items[0]), ItemsFrom(v, 1);
    assert ItemsFrom(v, 0) == "" + r + m;
    Opened("[", "" + r + m, "]" + tail, Render(v) + tail);
    Regrouped("", "", "", r, m, "]" + tail);
  }

  /** What `ReadMembers` sees from member `i` on. */
  ghost function MembersText(v: Value, keys: seq<string>, i: nat, tail: string): string
    requires v.Object? && i < |keys| && forall k | k in keys :: k in v.members
  {
    Quoted(keys[i]) + (":" + (Render(v.members[keys[i]]) + (MembersFrom(v, keys, i + 1) + ("}" + tail))))
  }

  ghost function MembersOf(v: Value, keys: seq<string>): map<string, Value>
    requires v.Object?
  {
    map k | k in keys && k in v.members :: v.members[k]
  }

  lemma KeysAreKeys(m: map<string, Value>, keys: seq<string>)
    requires keys == KeyOrder(m.Keys)
    ensures NoRepeats(keys) && (forall k | k in keys :: k in m)
    ensures MembersOf(Object(m), keys) == m && (keys == [] <==> m == map[])
    ensures keys[0..] == keys
  {
    if m != map[] {
      var k := Intervals.Pick(m.Keys);
      assert k in keys;
    }
    if keys != [] { assert keys[0] in m; }
  }

  lemma {:induction false} MembersBack(v: Value, keys: seq<string>, i: nat, tail: string)
    requires v.Object? && i < |keys| && NoRepeats(keys) && forall k | k in keys :: k in v.members
    ensures ReadMembers(MembersText(v, keys, i, tail)) == Some((MembersOf(v, keys[i..]), tail))
    decreases v, 0, |keys| - i
  {
    hide Render, ReadValue, Quoted, ReadMembers, MembersOf;
    var key, value := keys[i], v.members[keys[i]];
    var rest := MembersFrom(v, keys, i + 1) + ("}" + tail);
    if i + 1 == |keys| {
      assert rest == ['}'] + tail && rest[1..] == tail;
      ValueBack(value, rest);
      MemberBack(key, value, rest);
      LastMember(v, keys, i);
    } else {
      var next := MembersText(v, keys, i + 1, tail);
      NextMember(v, keys, i + 1, tail);
      assert rest[1..] == next;
      ValueBack(value, rest);
      MemberBack(key, value, rest);
      MembersBack(v, keys, i + 1, tail);
      OneMoreMember(v, keys, i);
    }
  }

  lemma NextMember(v: Value, keys: seq<string>, i: nat, tail: string)
    requires v.Object? && 0 < i < |keys| && forall k | k in keys :: k in v.members
    ensures MembersFrom(v, keys, i) + ("}" + tail) == [','] + MembersText(v, keys, i, tail)
  {
    hide Quoted, Render;
    var q, r, m := Quoted(keys[i]), Render(v.members[keys[i]]), MembersFrom(v, keys, i + 1);
    assert MembersFrom(v, keys, i) == "," + q + ":" + r + m;
    Regrouped(",", q, ":", r, m, "}" + tail);
  }

  lemma Regrouped(a: string, b: string, c: string, d: string, e: string, f: string)
    ensures (a + b + c + d + e) + f == a + (b + (c + (d + (e + f))))
  {}

  /** One member and what follows it. */
  lemma MemberBack(key: string, v: Value, rest: string)
    requires rest != [] && ReadValue(Render(v) + rest) == Some((v, rest))
    ensures ReadMembers(Quoted(key) + (":" + (Render(v) + rest))) ==
            if rest[0] == '}' then Some((map[key := v], rest[1..]))
            else if rest[0] != ',' || ReadMembers(rest[1..]).None? then None
            else Some((map[key := v] + ReadMembers(rest[1..]).value.0, ReadMembers(rest[1..]).value.1))
  {
    hide Render, ReadValue, Quoted, ReadText;
    var after := ":" + (Render(v) + rest);
    QuotedBack(key, after);
    assert after[1..] == Render(v) + rest;
  }

  lemma LastMember(v: Value, keys: seq<string>, i: nat)
    requires v.Object? && i + 1 == |keys| && keys[i] in v.members
    ensures MembersOf(v, keys[i..]) == map[keys[i] := v.members[keys[i]]]
  {
    assert keys[i..] == [keys[i]];
  }

  lemma OneMoreMember(v: Value, keys: seq<string>, i: nat)
    requires v.Object? && i + 1 < |keys| && NoRepeats(keys) && keys[i] in v.members
    ensures MembersOf(v, keys[i..]) == map[keys[i] := v.members[keys[i]]] + MembersOf(v, keys[i + 1..])
  {
    assert keys[i..] == [keys[i]] + keys[i + 1..];
    assert keys[i] !in keys[i + 1..];
  }

  lemma ObjectBack(v: Value, keys: seq<string>, tail: string)
    requires v.Object? && keys == KeyOrder(v.members.Keys) && (forall k | k in keys :: k in v.members)
    requires MembersOf(v, keys) == v.members && (keys == [] <==> v.members == map[])
    requires keys != [] ==> ReadMembers(MembersText(v, keys, 0, tail)) == Some((v.members, tail))
    ensures ReadValue(Render(v) + tail) == Some((v, tail))
  {
    hide ReadMembers, MembersOf, Quoted;
    var s := Render(v) + tail;
    assert s[0] == '{';
    if keys == [] {
      assert Render(v) == "{}";
      assert s[1..] == "}" + tail && s[2..] == tail;
      assert s[1..][..1] == "}";
    } else {
      var inner := MembersText(v, keys, 0, tail);
      OpensObject(v, keys, tail);
      QuotedBack(keys[0], (":" + (Render(v.members[keys[0]]) + (MembersFrom(v, keys, 1) + ("}" + tail)))));
      assert inner[0] == QUOTE;
      OtherStart(inner, "}");
    }
  }

  lemma Opened(open: string, inner: string, close: string, all: string)
    requires |open| == 1 && all == open + inner + close
    ensures all[1..] == inner + close
  {}

  lemma OpensObject(v: Value, keys: seq<string>, tail: string)
    requires v.Object? && keys == KeyOrder(v.members.Keys) && keys != [] && (forall k | k in keys :: k in v.members)
    ensures (Render(v) + tail)[1..] == MembersText(v, keys, 0, tail)
  {
    hide Quoted;
    var q, r, m := Quoted(keys[0]), Render(v.members[keys[0]]), MembersFrom(v, keys, 1);
    assert MembersFrom(v, keys, 0) == "" + q + ":" + r + m;
    Opened("{", "" + q + ":" + r + m, "}" + tail, Render(v) + tail);
    Regrouped("", q, ":", r, m, "}" + tail);
  }

  /** The encoding determines the value: the parser gives it back and leaves nothing over. */
  lemma RoundTrip(v: Value)
    ensures ReadValue(Render(v)) == Some((v, ""))
  {
    hide ReadValue, Render;
    ValueBack(v, "");
    assert Render(v) + "" == Render(v);
  }

  /** Two values with the same encoding are the same value. */
  lemma Injective(a: Value, b: Value)
    requires Render(a) == Render(b)
    ensures a == b
  {
    hide ReadValue, Render;
    RoundTrip(a);
    RoundTrip(b);
  }
}
