/** An abstract serde_json `Value` and the few operations the onboarding
    code applies to it: indexing with `v["key"]`, the `as_str`, `as_u64`,
    `as_bool` and `as_array` projections, `to_string` (compact rendering,
    with serde_json's string escaping), and the std string edits the code
    applies to rendered values (`replace('"', "")`, `trim_matches('"')`). */
module Json {
  import opened Wrappers

  /** Object members are listed in the map's iteration order, so rendering
      follows that order. Numbers are integers; floating-point numbers are
      not part of this model. */
  datatype Value =
    | Null
    | Bool(b: bool)
    | Number(n: int)
    | Str(s: string)
    | Array(items: seq<Value>)
    | Object(members: seq<Member>)

  datatype Member = Member(key: string, value: Value)

  // ---------------------------------------------------------------- access

  function Lookup(members: seq<Member>, key: string): Value
  {
    if |members| == 0 then Null
    else if members[0].key == key then members[0].value
    else Lookup(members[1..], key)
  }

  /** `v[key]`: Null when `v` is not an object or has no member `key`. */
  function Get(v: Value, key: string): Value
  {
    if v.Object? then Lookup(v.members, key) else Null
  }

  function AsStr(v: Value): Option<string>
  {
    if v.Str? then Some(v.s) else None
  }

  /** `as_u64`: only non-negative integers below 2^64. */
  function AsU64(v: Value): Option<U64>
  {
    if v.Number? && 0 <= v.n < U64_LIMIT then Some(v.n) else None
  }

  function AsBool(v: Value): Option<bool>
  {
    if v.Bool? then Some(v.b) else None
  }

  function AsArray(v: Value): Option<seq<Value>>
  {
    if v.Array? then Some(v.items) else None
  }

  // ------------------------------------------------------------- rendering

  function HexDigit(d: nat): char
    requires d < 16
  {
    "0123456789abcdef"[d]
  }

  /** serde_json's escaping of one character inside a string literal. */
  function EscapeChar(c: char): string
  {
    if c == '\"' then "\\\""
    else if c == '\\' then "\\\\"
    else if c == '\n' then "\\n"
    else if c == '\r' then "\\r"
    else if c == '\t' then "\\t"
    else if c == 8 as char then "\\b"
    else if c == 12 as char then "\\f"
    else if c < ' ' then "\\u00" + [HexDigit(c as int / 16), HexDigit(c as int % 16)]
    else [c]
  }

  function Escape(s: string): string
  {
    if |s| == 0 then "" else EscapeChar(s[0]) + Escape(s[1..])
  }

  function Quote(s: string): string
  {
    "\"" + Escape(s) + "\""
  }

  function DigitChar(d: nat): char
    requires d < 10
  {
    ('0' as int + d) as char
  }

  function NatDigits(n: nat): string
  {
    if n < 10 then [DigitChar(n)] else NatDigits(n / 10) + [DigitChar(n % 10)]
  }

  function Decimal(n: int): string
  {
    if n < 0 then "-" + NatDigits(-n) else NatDigits(n)
  }

  function Join(parts: seq<string>): string
  {
    if |parts| == 0 then ""
    else if |parts| == 1 then parts[0]
    else parts[0] + "," + Join(parts[1..])
  }

  /** `v.to_string()`: serde_json's compact rendering. */
  function Render(v: Value): string
  {
    match v
    case Null => "null"
    case Bool(b) => if b then "true" else "false"
    case Number(n) => Decimal(n)
    case Str(s) => Quote(s)
    case Array(items) =>
      "[" + Join(seq(|items|, i requires 0 <= i < |items| => Render(items[i]))) + "]"
    case Object(members) =>
      "{" + Join(seq(|members|, i requires 0 <= i < |members| =>
                   Quote(members[i].key) + ":" + Render(members[i].value))) + "}"
  }

  // ---------------------------------------------------------- string edits

  /** `s.replace(c, "")`. */
  function RemoveChar(s: string, c: char): string
  {
    if |s| == 0 then "" else (if s[0] == c then "" else [s[0]]) + RemoveChar(s[1..], c)
  }

  function TrimStart(s: string, c: char): string
  {
    if |s| > 0 && s[0] == c then TrimStart(s[1..], c) else s
  }

  function TrimEnd(s: string, c: char): string
  {
    if |s| > 0 && s[|s| - 1] == c then TrimEnd(s[..|s| - 1], c) else s
  }

  /** `s.trim_matches(c)`: every leading and trailing `c` removed. */
  function TrimMatches(s: string, c: char): string
  {
    TrimEnd(TrimStart(s, c), c)
  }

  /** A string serde_json renders without any escape: no quote, no
      backslash, no control character. */
  predicate Plain(s: string)
  {
    forall i :: 0 <= i < |s| ==> s[i] != '\"' && s[i] != '\\' && s[i] >= ' '
  }

  /** Decimal value of a string of digits (the inverse of NatDigits). */
  function DigitsValue(s: string): int
  {
    if |s| == 0 then 0 else DigitsValue(s[..|s| - 1]) * 10 + (s[|s| - 1] as int - '0' as int)
  }

  predicate IsDigits(s: string)
  {
    |s| > 0 && forall i :: 0 <= i < |s| ==> '0' <= s[i] <= '9'
  }

  // ---------------------------------------------------------------- lemmas

  lemma {:induction false} EscapePlain(s: string)
    requires Plain(s)
    ensures Escape(s) == s
  {
    if |s| > 0 {
      assert Plain(s[1..]) by {
        forall i | 0 <= i < |s[1..]| ensures s[1..][i] == s[i + 1] { }
      }
      EscapePlain(s[1..]);
    }
  }

  /** A plain string renders as itself between two quotes. */
  lemma RenderPlain(s: string)
    requires Plain(s)
    ensures Render(Str(s)) == "\"" + s + "\""
  {
    EscapePlain(s);
  }

  lemma {:induction false} RemoveConcat(a: string, b: string, c: char)
    ensures RemoveChar(a + b, c) == RemoveChar(a, c) + RemoveChar(b, c)
  {
    if |a| > 0 {
      assert (a + b)[1..] == a[1..] + b;
      RemoveConcat(a[1..], b, c);
    } else {
      assert a + b == b;
    }
  }

  lemma {:induction false} RemoveAbsent(s: string, c: char)
    requires forall i :: 0 <= i < |s| ==> s[i] != c
    ensures RemoveChar(s, c) == s
  {
    if |s| > 0 {
      RemoveAbsent(s[1..], c);
    }
  }

  /** After `replace(c, "")` no `c` is left. */
  lemma {:induction false} RemoveCharRemovesAll(s: string, c: char)
    ensures c !in RemoveChar(s, c)
  {
    if |s| > 0 {
      RemoveCharRemovesAll(s[1..], c);
    }
  }

  lemma {:induction false} TrimEndPrefix(s: string, c: char)
    ensures |TrimEnd(s, c)| <= |s| && TrimEnd(s, c) == s[..|TrimEnd(s, c)|]
  {
    if |s| > 0 && s[|s| - 1] == c {
      TrimEndPrefix(s[..|s| - 1], c);
    }
  }

  /** Trimming never changes a first character that is not the trimmed one. */
  lemma TrimKeepsHead(s: string, c: char)
    requires |s| > 0 && s[0] != c
    ensures TrimMatches(s, c) == [] || TrimMatches(s, c)[0] == s[0]
  {
    TrimEndPrefix(s, c);
  }

  /** A string that neither starts nor ends with `c` is left as it is. */
  lemma TrimUntouched(s: string, c: char)
    requires |s| > 0 && s[0] != c && s[|s| - 1] != c
    ensures TrimMatches(s, c) == s
  {
  }

  /** Stripping the quotes off a rendered plain string gives the string
      back, both with `replace('"', "")` and with `trim_matches('"')`. */
  lemma StripRenderedPlain(s: string)
    requires Plain(s)
    ensures RemoveChar(Render(Str(s)), '\"') == s
    ensures TrimMatches(Render(Str(s)), '\"') == s
  {
    RenderPlain(s);
    RemoveQuotes(s);
    TrimQuotes(s);
  }

  lemma RemoveQuotes(s: string)
    requires Plain(s)
    ensures RemoveChar("\"" + s + "\"", '\"') == s
  {
    var q := "\"";
    assert q[1..] == "";
    assert RemoveChar(q, '\"') == "";
    RemoveConcat(q + s, q, '\"');
    RemoveConcat(q, s, '\"');
    assert forall i :: 0 <= i < |s| ==> s[i] != '\"';
    RemoveAbsent(s, '\"');
    calc {
      RemoveChar(q + s + q, '\"');
      RemoveChar(q + s, '\"') + RemoveChar(q, '\"');
      RemoveChar(q, '\"') + RemoveChar(s, '\"');
    }
  }

  lemma TrimQuotes(s: string)
    requires Plain(s)
    ensures TrimMatches("\"" + s + "\"", '\"') == s
  {
    var q := "\"";
    assert TrimStart(q + s + q, '\"') == TrimStart(s + q, '\"') by {
      assert (q + s + q)[1..] == s + q;
    }
    if |s| == 0 {
      assert s + q == q;
    } else {
      assert TrimStart(s + q, '\"') == s + q;
      assert (s + q)[..|s + q| - 1] == s;
      assert TrimEnd(s + q, '\"') == TrimEnd(s, '\"');
      assert s[|s| - 1] != '\"';
    }
  }

  lemma {:induction false} TrimStartKeeps(s: string, c: char, p: nat)
    requires p < |s| && s[p] != c
    ensures |TrimStart(s, c)| <= |s| && |s| - |TrimStart(s, c)| <= p
    ensures TrimStart(s, c) == s[|s| - |TrimStart(s, c)|..]
  {
    if |s| > 0 && s[0] == c {
      var rest := s[1..];
      TrimStartKeeps(rest, c, p - 1);
      assert TrimStart(s, c) == TrimStart(rest, c);
      var d := |rest| - |TrimStart(rest, c)|;
      assert rest[d..] == s[d + 1..];
    }
  }

  lemma {:induction false} TrimEndKeeps(s: string, c: char, q: nat)
    requires q < |s| && s[q] != c
    ensures q < |TrimEnd(s, c)| && TrimEnd(s, c)[q] == s[q]
  {
    if s[|s| - 1] == c {
      TrimEndKeeps(s[..|s| - 1], c, q);
    }
  }

  /** Trimming keeps every character that is not the trimmed one. */
  lemma TrimKeeps(s: string, c: char, p: nat)
    requires p < |s| && s[p] != c
    ensures s[p] in TrimMatches(s, c)
  {
    TrimStartKeeps(s, c, p);
    var t := TrimStart(s, c);
    var d := |s| - |t|;
    assert t == s[d..] && d <= p;
    assert t[p - d] == s[p];
    TrimEndKeeps(t, c, p - d);
  }

  /** A string that is not plain is escaped with a backslash. */
  lemma {:induction false} EscapeBackslash(s: string)
    requires !Plain(s)
    ensures '\\' in Escape(s)
  {
    if s[0] == '\"' || s[0] == '\\' || s[0] < ' ' {
      assert EscapeChar(s[0])[0] == '\\';
      assert Escape(s)[0] == '\\';
    } else {
      assert !Plain(s[1..]) by {
        var i :| 0 <= i < |s| && !(s[i] != '\"' && s[i] != '\\' && s[i] >= ' ');
        assert s[1..][i - 1] == s[i];
      }
      EscapeBackslash(s[1..]);
    }
  }

  /** The backslash of an escape survives `trim_matches('"')`. */
  lemma TrimRenderedEscaped(s: string)
    requires !Plain(s)
    ensures '\\' in TrimMatches(Render(Str(s)), '\"')
  {
    EscapeBackslash(s);
    var e := Escape(s);
    var j :| 0 <= j < |e| && e[j] == '\\';
    var r := Render(Str(s));
    assert r == "\"" + e + "\"";
    assert r[j + 1] == '\\';
    TrimKeeps(r, '\"', j + 1);
  }

  lemma {:induction false} NatDigitsShape(n: nat)
    ensures IsDigits(NatDigits(n))
  {
    if n >= 10 {
      NatDigitsShape(n / 10);
    }
  }

  /** Reading the decimal rendering of a natural number gives it back. */
  lemma {:induction false} DigitsRoundTrip(n: nat)
    ensures DigitsValue(NatDigits(n)) == n
  {
    if n >= 10 {
      var s := NatDigits(n);
      assert s[..|s| - 1] == NatDigits(n / 10);
      DigitsRoundTrip(n / 10);
    }
  }

  /** What a rendered value begins with, so that callers comparing a
      rendering against a word can rule out every other kind of value. */
  lemma RenderHead(v: Value)
    ensures |Render(v)| > 0
    ensures v.Number? ==> Render(v)[0] == '-' || '0' <= Render(v)[0] <= '9'
    ensures v.Str? ==> Render(v)[0] == '\"'
    ensures v.Array? ==> Render(v)[0] == '['
    ensures v.Object? ==> Render(v)[0] == '{'
  {
    if v.Number? && v.n >= 0 {
      NatDigitsShape(v.n);
    }
  }
}
