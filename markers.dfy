/** The special-value decoder of the Nuxt 3 hydrator: marker detection and the
    decoding of the scalar markers `$d` (date), `$b` (bigint) and `$r` (regexp).
    The container markers `$s` and `$m` are filled by the hydrator itself. */
module SpecialValues {
  import opened JsonValues
  import opened Hydrated

  /** Which branch a dict slot takes. */
  datatype Tag = DateTag | SetTag | MapTag | BigIntTag | RegExpTag | PlainTag

  /** Markers are detected by key presence, in the fixed order
      `$d`, `$s`, `$m`, `$b`, `$r`, whatever other keys the dict has. */
  function TagOf(es: seq<(string, Json)>): (t: Tag)
    ensures t == DateTag <==> HasKey(es, "$d")
    ensures t == SetTag <==> !HasKey(es, "$d") && HasKey(es, "$s")
    ensures t == MapTag <==> !HasKey(es, "$d") && !HasKey(es, "$s") && HasKey(es, "$m")
    ensures t == BigIntTag <==>
      !HasKey(es, "$d") && !HasKey(es, "$s") && !HasKey(es, "$m") && HasKey(es, "$b")
    ensures t == RegExpTag <==>
      !HasKey(es, "$d") && !HasKey(es, "$s") && !HasKey(es, "$m") && !HasKey(es, "$b")
      && HasKey(es, "$r")
    ensures t == PlainTag <==>
      !HasKey(es, "$d") && !HasKey(es, "$s") && !HasKey(es, "$m") && !HasKey(es, "$b")
      && !HasKey(es, "$r")
  {
    if HasKey(es, "$d") then DateTag
    else if HasKey(es, "$s") then SetTag
    else if HasKey(es, "$m") then MapTag
    else if HasKey(es, "$b") then BigIntTag
    else if HasKey(es, "$r") then RegExpTag
    else PlainTag
  }

  /** The payload under the winning marker key. */
  function Payload(es: seq<(string, Json)>, t: Tag): Json
    requires t == TagOf(es) && t != PlainTag
  {
    match t
    case DateTag => Lookup(es, "$d")
    case SetTag => Lookup(es, "$s")
    case MapTag => Lookup(es, "$m")
    case BigIntTag => Lookup(es, "$b")
    case RegExpTag => Lookup(es, "$r")
  }

  /** `bool`, `int` and `float` are the payloads `payload / 1000` accepts. */
  predicate IsNumber(j: Json)
  {
    j.JBool? || j.JInt? || j.JFloat?
  }

  function NumberValue(j: Json): real
    requires IsNumber(j)
  {
    match j
    case JBool(b) => if b then 1.0 else 0.0
    case JInt(i) => i as real
    case JFloat(x) => x
  }

  /** `{"$d": ms}`: a numeric payload becomes a date; any other payload makes the
      division raise `TypeError`, which is caught, and the dict itself is kept. */
  function DecodeDate(raw: Json, payload: Json): (h: HVal)
    ensures h.Date? <==> IsNumber(payload)
    ensures h.Date? ==> h.ms == NumberValue(payload)
    ensures !h.Date? ==> h == Plain(raw)
  {
    if IsNumber(payload) then Date(NumberValue(payload)) else Plain(raw)
  }

  // ---------------------------------------------------------------------------
  // Python `int()` on a string, for `{"$b": "..."}`.

  predicate IsDigit(c: char)
  {
    '0' <= c <= '9'
  }

  function DigitValue(c: char): nat
    requires IsDigit(c)
  {
    (c as int) - ('0' as int)
  }

  function DigitChar(d: nat): (c: char)
    requires d < 10
    ensures IsDigit(c) && DigitValue(c) == d
  {
    (('0' as int) + d) as char
  }

  /** `s` without its leading whitespace. */
  function TrimLeft(s: string): (r: string)
    ensures |r| <= |s| && r == s[|s| - |r|..]
    ensures r == [] || !IsSpace(r[0])
  {
    if s != [] && IsSpace(s[0]) then TrimLeft(s[1..]) else s
  }

  /** `s` without its trailing whitespace. */
  function TrimRight(s: string): (r: string)
    ensures |r| <= |s| && r == s[..|r|]
    ensures r == [] || !IsSpace(r[|r| - 1])
  {
    if s != [] && IsSpace(s[|s| - 1]) then TrimRight(s[..|s| - 1]) else s
  }

  /** `s.strip()`. */
  function Strip(s: string): string
  {
    TrimRight(TrimLeft(s))
  }

  /** Decimal digits, optionally grouped by single underscores between digits. */
  predicate DigitGroups(s: string)
  {
    && s != []
    && IsDigit(s[0]) && IsDigit(s[|s| - 1])
    && (forall k :: 0 <= k < |s| ==> IsDigit(s[k]) || s[k] == '_')
    && (forall k :: 0 <= k < |s| - 1 ==> s[k] == '_' ==> s[k + 1] != '_')
  }

  /** The value of the digits of `s`, underscores skipped. */
  function DigitsValue(s: string): nat
    requires forall k :: 0 <= k < |s| ==> IsDigit(s[k]) || s[k] == '_'
  {
    if s == [] then 0
    else if s[|s| - 1] == '_' then DigitsValue(s[..|s| - 1])
    else DigitsValue(s[..|s| - 1]) * 10 + DigitValue(s[|s| - 1])
  }

  /** Digits grouped by underscores, read as a number. */
  function ParseDigits(t: string): (r: Option<nat>)
    ensures r.Some? <==> DigitGroups(t)
  {
    if DigitGroups(t) then Some(DigitsValue(t)) else None
  }

  /** `int(t)` for a string without surrounding whitespace. */
  function ParseSigned(t: string): Option<int>
  {
    if t != [] && (t[0] == '-' || t[0] == '+') then
      match ParseDigits(t[1..])
      case None => None
      case Some(v) => Some(if t[0] == '-' then -(v as int) else v as int)
    else
      match ParseDigits(t)
      case None => None
      case Some(v) => Some(v as int)
  }

  /** `int(s)` in base 10: surrounding whitespace, one optional sign, then
      digits grouped by single underscores; `None` where Python raises
      `ValueError`. */
  function ParseInt(s: string): Option<int>
  {
    ParseSigned(Strip(s))
  }

  /** The decimal digits of `n`, most significant first (`str(n)` for n >= 0). */
  function Digits(n: nat): (s: string)
    ensures s != [] && forall k :: 0 <= k < |s| ==> IsDigit(s[k])
  {
    if n < 10 then [DigitChar(n)] else Digits(n / 10) + [DigitChar(n % 10)]
  }

  /** `str(n)`. */
  function FormatInt(n: int): string
  {
    if n < 0 then "-" + Digits(-n) else Digits(n)
  }

  lemma {:induction false} DigitsValueOfDigits(n: nat)
    ensures DigitsValue(Digits(n)) == n
  {
    var s := Digits(n);
    if n >= 10 {
      DigitsValueOfDigits(n / 10);
      assert s[..|s| - 1] == Digits(n / 10);
    }
  }

  lemma {:induction false} StripNoSpaceEnds(s: string)
    requires s != [] && !IsSpace(s[0]) && !IsSpace(s[|s| - 1])
    ensures Strip(s) == s
  {
  }

  lemma {:induction false} DigitsAreGroups(ds: string)
    requires ds != [] && forall k :: 0 <= k < |ds| ==> IsDigit(ds[k])
    ensures DigitGroups(ds)
  {
  }

  /** A run of digits parses to its value. */
  lemma {:induction false} ParseUnsigned(ds: string, v: nat)
    requires ds != [] && forall k :: 0 <= k < |ds| ==> IsDigit(ds[k])
    requires DigitsValue(ds) == v
    ensures ParseInt(ds) == Some(v)
  {
    StripNoSpaceEnds(ds);
    DigitsAreGroups(ds);
  }

  /** A minus sign followed by a run of digits parses to the negated value. */
  lemma {:induction false} ParseNegative(ds: string, v: nat)
    requires ds != [] && forall k :: 0 <= k < |ds| ==> IsDigit(ds[k])
    requires DigitsValue(ds) == v
    ensures ParseInt("-" + ds) == Some(-(v as int))
  {
    var s := "-" + ds;
    assert s[|s| - 1] == ds[|ds| - 1];
    StripNoSpaceEnds(s);
    assert s[1..] == ds;
    DigitsAreGroups(ds);
    assert ParseDigits(ds) == Some(v);
  }

  /** `int(str(n)) == n`: a bigint payload written in decimal decodes to
      the number it spells. */
  lemma {:induction false} ParseIntFormatInt(n: int)
    ensures ParseInt(FormatInt(n)) == Some(n)
  {
    if n < 0 {
      var ds := Digits(-n);
      DigitsValueOfDigits(-n);
      ParseNegative(ds, -n);
      assert FormatInt(n) == "-" + ds;
    } else {
      var ds := Digits(n);
      DigitsValueOfDigits(n);
      ParseUnsigned(ds, n);
      assert FormatInt(n) == ds;
    }
  }

  /** Python's `int(x)` on a float truncates toward zero. */
  function Trunc(x: real): (i: int)
    ensures x >= 0.0 ==> i as real <= x < i as real + 1.0
    ensures x < 0.0 ==> i as real - 1.0 < x <= i as real
  {
    if x >= 0.0 then x.Floor else -((-x).Floor)
  }

  /** `{"$b": payload}`: `int(payload)`.  A string is parsed as `ParseInt`
      does; one `int` rejects raises `ValueError`, which is caught and keeps
      the dict.  A bool becomes 0 or 1 and a float is truncated toward zero.
      `None`, a list or a dict raises `TypeError`, which is not caught here
      (`None` result). */
  function DecodeBigInt(raw: Json, payload: Json): (r: Option<HVal>)
    requires raw.JObj?
    ensures r.None? <==> payload.JNull? || payload.JArr? || payload.JObj?
    ensures r.Some? ==> r.value == Plain(raw) || (r.value.Plain? && r.value.j.JInt?)
    ensures payload.JStr? ==> (r == Some(Plain(raw)) <==> ParseInt(payload.s).None?)
    ensures payload.JStr? && ParseInt(payload.s).Some? ==> r == Some(Plain(JInt(ParseInt(payload.s).value)))
    ensures payload.JInt? ==> r == Some(Plain(payload))
    ensures payload.JBool? ==> r == Some(Plain(JInt(if payload.b then 1 else 0)))
    ensures payload.JFloat? ==> r == Some(Plain(JInt(Trunc(payload.x))))
  {
    match payload
    case JStr(s) =>
      (match ParseInt(s)
       case Some(n) => Some(Plain(JInt(n)))
       case None => Some(Plain(raw)))
    case JInt(n) => Some(Plain(JInt(n)))
    case JBool(b) => Some(Plain(JInt(if b then 1 else 0)))
    case JFloat(x) => Some(Plain(JInt(Trunc(x))))
    case _ => None
  }

  /** A decimal bigint payload decodes to its number. */
  lemma BigIntRoundTrip(raw: Json, n: int)
    requires raw.JObj?
    ensures DecodeBigInt(raw, JStr(FormatInt(n))) == Some(Plain(JInt(n)))
  {
    ParseIntFormatInt(n);
  }

  // ---------------------------------------------------------------------------
  // `{"$r": "/body/flags"}`.

  /** `s.rfind(c)`: the last position of `c`, or -1. */
  function LastIndexOf(s: string, c: char): (r: int)
    ensures -1 <= r < |s|
    ensures r == -1 <==> c !in s
    ensures r >= 0 ==> s[r] == c && forall k :: r < k < |s| ==> s[k] != c
  {
    if s == [] then -1
    else if s[|s| - 1] == c then |s| - 1
    else LastIndexOf(s[..|s| - 1], c)
  }

  /** `s.startswith('/') and '/' in s[1:]`. */
  predicate SlashDelimited(s: string)
  {
    s != [] && s[0] == '/' && '/' in s[1..]
  }

  /** `{"$r": payload}` given whether the body compiles.  A "/body/flags" string
      (split at the last '/') whose body compiles becomes a pattern with
      IGNORECASE for 'i', MULTILINE for 'm' and DOTALL for 's' (other flags are
      ignored); a body that does not compile keeps the dict; a string of another
      form is kept as that string; a non-string payload keeps the dict. */
  function DecodeRegExp(raw: Json, payload: Json, compiles: string -> bool): (h: HVal)
    ensures h.Pattern? <==> payload.JStr? && SlashDelimited(payload.s)
                            && compiles(payload.s[1..LastIndexOf(payload.s, '/')])
    ensures h.Pattern? ==>
      var s := payload.s;
      var last := LastIndexOf(s, '/');
      h == Pattern(s[1..last], 'i' in s[last + 1..], 'm' in s[last + 1..], 's' in s[last + 1..])
    ensures payload.JStr? && !SlashDelimited(payload.s) ==> h == Plain(payload)
    ensures !payload.JStr? ==> h == Plain(raw)
  {
    match payload
    case JStr(s) =>
      if SlashDelimited(s) then
        var last := LastIndexOf(s, '/');
        assert last >= 1 by {
          var k :| 0 <= k < |s[1..]| && s[1..][k] == '/';
          assert s[k + 1] == '/';
        }
        var body := s[1..last];
        var flags := s[last + 1..];
        if compiles(body) then Pattern(body, 'i' in flags, 'm' in flags, 's' in flags)
        else Plain(raw)
      else Plain(payload)
    case _ => Plain(raw)
  }

  /** "/body/flags" with a compiling body and no '/' among the flags decodes to
      exactly that body and the flags' translation, even when the body itself
      contains '/'. */
  lemma {:induction false} RegExpRoundTrip(raw: Json, body: string, flags: string, compiles: string -> bool)
    requires '/' !in flags && compiles(body)
    ensures DecodeRegExp(raw, JStr("/" + body + "/" + flags), compiles)
         == Pattern(body, 'i' in flags, 'm' in flags, 's' in flags)
  {
    var s := "/" + body + "/" + flags;
    var last := |body| + 1;
    assert s[last] == '/';
    assert s[1..][|body|] == '/';
    assert SlashDelimited(s);
    forall k | last < k < |s|
      ensures s[k] != '/'
    {
      assert s[k] == flags[k - last - 1];
    }
    assert LastIndexOf(s, '/') == last;
    assert s[1..last] == body;
    assert s[last + 1..] == flags;
  }

  /** The JavaScript 'g' flag has no Python counterpart and is ignored:
      "/body/flagsg" decodes as "/body/flags" does ("/test/gi" turns on
      IGNORECASE only). */
  lemma {:induction false} GlobalFlagIgnored(raw: Json, body: string, flags: string, compiles: string -> bool)
    requires '/' !in flags && compiles(body)
    ensures DecodeRegExp(raw, JStr("/" + body + "/" + (flags + "g")), compiles)
         == DecodeRegExp(raw, JStr("/" + body + "/" + flags), compiles)
  {
    var gflags := flags + "g";
    assert forall c :: c in gflags <==> c in flags || c == 'g';
    RegExpRoundTrip(raw, body, gflags, compiles);
    RegExpRoundTrip(raw, body, flags, compiles);
  }
}
