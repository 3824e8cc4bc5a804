/**
 * The minimal JSON field extractor of the update tracker (`parse_json_value`).
 *
 * It is not a JSON parser: it finds the first occurrence of the quoted key,
 * the next ':' after it, skips blanks, and then copies either a quoted string
 * (up to the next '"', escapes are not interpreted) or a bare token (up to
 * ',', '}', a blank or the end of the text), cut to `maxLen - 1` characters.
 *
 * Texts are C strings: the scanner sees its input only up to the first NUL.
 */
module JsonField {
  import opened Wrappers

  /** Size of the buffer the quoted search key is formatted into. */
  const SearchKeySize: nat := 64

  /** The text a C string pointer denotes: everything before the first NUL. */
  function CStr(s: string): (t: string)
    ensures '\0' !in t
    ensures |t| <= |s| && t == s[..|t|]
    ensures |t| < |s| ==> s[|t|] == '\0'
  {
    if s == [] || s[0] == '\0' then [] else [s[0]] + CStr(s[1..])
  }

  /** A terminated buffer denotes exactly the characters before its terminator. */
  lemma CStrOfTerminated(b: string, v: string)
    requires '\0' !in v && |v| < |b| && b[..|v|] == v && b[|v|] == '\0'
    ensures CStr(b) == v
  {
  }

  /** A text without NUL is seen in full. */
  lemma CStrWithoutNul(s: string)
    requires '\0' !in s
    ensures CStr(s) == s
  {
  }

  /** Whatever follows a NUL is invisible to a C string scan. */
  lemma {:induction false} CStrCut(a: string, b: string)
    ensures CStr(a + ['\0'] + b) == CStr(a)
  {
    if a != [] {
      assert (a + ['\0'] + b)[1..] == a[1..] + ['\0'] + b;
      CStrCut(a[1..], b);
    }
  }

  /** `"key"` as the source formats it: quoted and cut to fit the 64-byte buffer. */
  function SearchKey(key: string): (sk: string)
    ensures 2 <= |sk| < SearchKeySize && sk[0] == '"'
    ensures |key| + 2 < SearchKeySize ==> sk == ['"'] + key + ['"']
    ensures |sk| == (if |key| + 2 < SearchKeySize then |key| + 2 else SearchKeySize - 1)
    ensures sk == (['"'] + key + ['"'])[..|sk|]
  {
    var quoted := ['"'] + key + ['"'];
    if |quoted| < SearchKeySize then quoted else quoted[..SearchKeySize - 1]
  }

  predicate OccursAt(t: string, p: string, i: nat)
  {
    i + |p| <= |t| && t[i..i + |p|] == p
  }

  /** The first occurrence of `p` in `t` at or after `from` (`strstr`). */
  function FindSubstring(t: string, p: string, from: nat): (r: Option<nat>)
    requires from <= |t|
    ensures r.Some? ==> from <= r.value && OccursAt(t, p, r.value)
    ensures r.Some? ==> forall j :: from <= j < r.value ==> !OccursAt(t, p, j)
    ensures r.None? ==> forall j :: from <= j ==> !OccursAt(t, p, j)
    decreases |t| - from
  {
    if OccursAt(t, p, from) then Some(from)
    else if from == |t| then None
    else FindSubstring(t, p, from + 1)
  }

  /** The first position at or after `from` holding `c` (`strchr`). */
  function FindChar(t: string, c: char, from: nat): (r: Option<nat>)
    requires from <= |t|
    ensures r.Some? ==> from <= r.value < |t| && t[r.value] == c
    ensures r.Some? ==> forall j :: from <= j < r.value ==> t[j] != c
    ensures r.None? ==> forall j :: from <= j < |t| ==> t[j] != c
    decreases |t| - from
  {
    if from == |t| then None
    else if t[from] == c then Some(from)
    else FindChar(t, c, from + 1)
  }

  predicate IsBlank(c: char)
  {
    c == ' ' || c == '\t' || c == '\n' || c == '\r'
  }

  /** Characters that end a bare (unquoted) value. */
  predicate EndsToken(c: char)
  {
    c == ',' || c == '}' || IsBlank(c)
  }

  /** The first non-blank position at or after `from`. */
  function SkipBlanks(t: string, from: nat): (r: nat)
    requires from <= |t|
    ensures from <= r <= |t|
    ensures forall j :: from <= j < r ==> IsBlank(t[j])
    ensures r < |t| ==> !IsBlank(t[r])
    decreases |t| - from
  {
    if from < |t| && IsBlank(t[from]) then SkipBlanks(t, from + 1) else from
  }

  /** The end of the bare token starting at `from`. */
  function TokenEnd(t: string, from: nat): (r: nat)
    requires from <= |t|
    ensures from <= r <= |t|
    ensures forall j :: from <= j < r ==> !EndsToken(t[j])
    ensures r < |t| ==> EndsToken(t[r])
    decreases |t| - from
  {
    if from < |t| && !EndsToken(t[from]) then TokenEnd(t, from + 1) else from
  }

  /** What fits in a buffer of `maxLen` characters together with its terminator. */
  function Truncate(v: string, maxLen: nat): (r: string)
    requires maxLen >= 1
    ensures |r| == if |v| < maxLen then |v| else maxLen - 1
    ensures r == v[..|r|]
  {
    if |v| >= maxLen then v[..maxLen - 1] else v
  }

  /** The half-open range `[start, stop)` of a value inside the text. */
  datatype Span = Span(start: nat, stop: nat)

  /**
   * Where the value of the field with quoted key `sk` lies in the C string
   * `t`, or None when the key is absent, no ':' follows it or a quoted value
   * is not closed.
   */
  function ValueSpan(t: string, sk: string): (r: Option<Span>)
    ensures r.Some? ==> r.value.start <= r.value.stop <= |t|
  {
    match FindSubstring(t, sk, 0)
    case None => None
    case Some(k) =>
      match FindChar(t, ':', k + |sk|)
      case None => None
      case Some(c) =>
        var s := SkipBlanks(t, c + 1);
        if s < |t| && t[s] == '"' then
          match FindChar(t, '"', s + 1)
          case None => None
          case Some(e) => Some(Span(s + 1, e))
        else
          Some(Span(s, TokenEnd(t, s)))
  }

  lemma NoNulInPart(t: string, s: nat, e: nat, n: nat)
    requires '\0' !in t && s <= e <= |t| && n <= e - s
    ensures '\0' !in t[s..e][..n]
  {
    forall i | 0 <= i < n ensures t[s..e][..n][i] != '\0' {
      assert t[s..e][..n][i] == t[s + i];
    }
  }

  /**
   * The value of field `key` in `json`, as copied into a buffer of `maxLen`
   * characters, or None when the key is absent or the value is undelimited.
   */
  function ParseJsonValue(json: string, key: string, maxLen: nat): (r: Option<string>)
    requires maxLen >= 1
    ensures r.Some? ==> |r.value| < maxLen && '\0' !in r.value
  {
    var t := CStr(json);
    match ValueSpan(t, SearchKey(key))
    case None => None
    case Some(sp) =>
      var v := Truncate(t[sp.start..sp.stop], maxLen);
      NoNulInPart(t, sp.start, sp.stop, |v|);
      Some(v)
  }

  // ---------------------------------------------------------------------
  // Declarative description of where the value lies
  // ---------------------------------------------------------------------

  /** `k` is the first position where `p` occurs in `t`. */
  ghost predicate FirstOccurrence(t: string, p: string, k: nat)
  {
    OccursAt(t, p, k) && forall j :: 0 <= j < k ==> !OccursAt(t, p, j)
  }

  /** `i` is the first position at or after `from` holding `c`. */
  ghost predicate FirstCharFrom(t: string, c: char, from: nat, i: nat)
  {
    from <= i < |t| && t[i] == c && forall j :: from <= j < i ==> t[j] != c
  }

  /** Everything in `t[from..to]` is blank. */
  ghost predicate AllBlank(t: string, from: nat, to: nat)
  {
    from <= to <= |t| && forall j :: from <= j < to ==> IsBlank(t[j])
  }

  /**
   * A quoted value: the key's first occurrence at `k`, the first ':' after it
   * at `c`, only blanks up to the opening quote at `s`, the closing quote at
   * `e`; the value is the text between the quotes.
   */
  lemma QuotedSpan(t: string, sk: string, k: nat, c: nat, s: nat, e: nat)
    requires FirstOccurrence(t, sk, k) && FirstCharFrom(t, ':', k + |sk|, c)
    requires AllBlank(t, c + 1, s) && s < |t| && t[s] == '"'
    requires FirstCharFrom(t, '"', s + 1, e)
    ensures ValueSpan(t, sk) == Some(Span(s + 1, e))
  {
    FirstOccurrenceUnique(t, sk, k);
    assert SkipBlanks(t, c + 1) == s;
  }

  /**
   * A bare value: as above, but the first non-blank character at `s` is not a
   * quote, and the token runs up to `e`, the first ',', '}', blank or the end.
   */
  lemma BareSpan(t: string, sk: string, k: nat, c: nat, s: nat, e: nat)
    requires FirstOccurrence(t, sk, k) && FirstCharFrom(t, ':', k + |sk|, c)
    requires AllBlank(t, c + 1, s) && (s < |t| ==> !IsBlank(t[s]) && t[s] != '"')
    requires s <= e <= |t| && (forall j :: s <= j < e ==> !EndsToken(t[j]))
    requires e < |t| ==> EndsToken(t[e])
    ensures ValueSpan(t, sk) == Some(Span(s, e))
  {
    FirstOccurrenceUnique(t, sk, k);
    assert SkipBlanks(t, c + 1) == s;
    assert TokenEnd(t, s) == e;
  }

  /** In a text without NUL, the copied value is the span's text, cut to `maxLen - 1`. */
  lemma ParseFromSpan(t: string, key: string, maxLen: nat, sk: string, span: Span, v: string)
    requires maxLen >= 1 && '\0' !in t && sk == SearchKey(key) && ValueSpan(t, sk) == Some(span)
    requires span.start <= span.stop <= |t| && t[span.start..span.stop] == v
    ensures ParseJsonValue(t, key, maxLen) == Some(Truncate(v, maxLen))
  {
    CStrWithoutNul(t);
  }

  /** The copied quoted value is the text between the quotes, cut to `maxLen - 1`. */
  lemma ParseStringValue(json: string, key: string, maxLen: nat, k: nat, c: nat, s: nat, e: nat)
    requires maxLen >= 1
    requires var t := CStr(json);
      FirstOccurrence(t, SearchKey(key), k) && FirstCharFrom(t, ':', k + |SearchKey(key)|, c) &&
      AllBlank(t, c + 1, s) && s < |t| && t[s] == '"' && FirstCharFrom(t, '"', s + 1, e)
    ensures ParseJsonValue(json, key, maxLen) == Some(Truncate(CStr(json)[s + 1..e], maxLen))
  {
    QuotedSpan(CStr(json), SearchKey(key), k, c, s, e);
  }

  /** The copied bare value is the token, cut to `maxLen - 1`. */
  lemma ParseBareValue(json: string, key: string, maxLen: nat, k: nat, c: nat, s: nat, e: nat)
    requires maxLen >= 1
    requires var t := CStr(json);
      FirstOccurrence(t, SearchKey(key), k) && FirstCharFrom(t, ':', k + |SearchKey(key)|, c) &&
      AllBlank(t, c + 1, s) && (s < |t| ==> !IsBlank(t[s]) && t[s] != '"') &&
      s <= e <= |t| && (forall j :: s <= j < e ==> !EndsToken(t[j])) &&
      (e < |t| ==> EndsToken(t[e]))
    ensures ParseJsonValue(json, key, maxLen) == Some(Truncate(CStr(json)[s..e], maxLen))
  {
    BareSpan(CStr(json), SearchKey(key), k, c, s, e);
  }

  /** Failure: the quoted key does not occur before the first NUL. */
  lemma ParseKeyAbsent(json: string, key: string, maxLen: nat)
    requires maxLen >= 1
    requires forall i :: !OccursAt(CStr(json), SearchKey(key), i)
    ensures ParseJsonValue(json, key, maxLen) == None
  {
  }

  /** Failure: no ':' follows the key's first occurrence. */
  lemma ParseNoColon(json: string, key: string, maxLen: nat, k: nat)
    requires maxLen >= 1
    requires var t := CStr(json);
      FirstOccurrence(t, SearchKey(key), k) &&
      forall j :: k + |SearchKey(key)| <= j < |t| ==> t[j] != ':'
    ensures ParseJsonValue(json, key, maxLen) == None
  {
    FirstOccurrenceUnique(CStr(json), SearchKey(key), k);
  }

  /** A quoted value whose closing quote is missing yields no span. */
  lemma UnterminatedSpan(t: string, sk: string, k: nat, c: nat, s: nat)
    requires FirstOccurrence(t, sk, k) && FirstCharFrom(t, ':', k + |sk|, c)
    requires AllBlank(t, c + 1, s) && s < |t| && t[s] == '"'
    requires forall j :: s + 1 <= j < |t| ==> t[j] != '"'
    ensures ValueSpan(t, sk) == None
  {
    FirstOccurrenceUnique(t, sk, k);
    assert SkipBlanks(t, c + 1) == s;
  }

  /** Failure: a quoted value whose closing quote is missing. */
  lemma ParseUnterminated(json: string, key: string, maxLen: nat, k: nat, c: nat, s: nat)
    requires maxLen >= 1
    requires var t := CStr(json);
      FirstOccurrence(t, SearchKey(key), k) && FirstCharFrom(t, ':', k + |SearchKey(key)|, c) &&
      AllBlank(t, c + 1, s) && s < |t| && t[s] == '"' &&
      forall j :: s + 1 <= j < |t| ==> t[j] != '"'
    ensures ParseJsonValue(json, key, maxLen) == None
  {
    UnterminatedSpan(CStr(json), SearchKey(key), k, c, s);
  }

  /** The extractor reads nothing after a NUL. */
  lemma ParseStopsAtNul(a: string, b: string, key: string, maxLen: nat)
    requires maxLen >= 1
    ensures ParseJsonValue(a + ['\0'] + b, key, maxLen) == ParseJsonValue(a, key, maxLen)
  {
    CStrCut(a, b);
  }

  /** One differing character rules out an occurrence. */
  lemma MismatchAt(t: string, p: string, j: nat, d: nat)
    requires d < |p| && (j + d < |t| ==> t[j + d] != p[d])
    ensures !OccursAt(t, p, j)
  {
    if j + |p| <= |t| {
      assert t[j..j + |p|][d] == t[j + d];
    }
  }

  lemma FirstOccurrenceUnique(t: string, p: string, k: nat)
    requires FirstOccurrence(t, p, k)
    ensures FindSubstring(t, p, 0) == Some(k)
  {
  }

  // ---------------------------------------------------------------------
  // The scanner as the source runs it: pointer loops and a memcpy
  // ---------------------------------------------------------------------

  /** The scan of the source's pointer loops: finds the value's span without writing. */
  method LocateValue(t: string, sk: string) returns (span: Option<Span>)
    ensures span == ValueSpan(t, sk)
  {
    var keyPos := FindSubstring(t, sk, 0);
    if keyPos.None? {
      return None;
    }
    var colon := FindChar(t, ':', keyPos.value + |sk|);
    if colon.None? {
      return None;
    }
    var start := colon.value + 1;
    while start < |t| && IsBlank(t[start])
      invariant colon.value + 1 <= start <= |t|
      invariant SkipBlanks(t, start) == SkipBlanks(t, colon.value + 1)
    {
      start := start + 1;
    }
    if start < |t| && t[start] == '"' {
      var close := FindChar(t, '"', start + 1);
      if close.None? {
        return None;
      }
      return Some(Span(start + 1, close.value));
    }
    var stop := start;
    while stop < |t| && !EndsToken(t[stop])
      invariant start <= stop <= |t|
      invariant TokenEnd(t, stop) == TokenEnd(t, start)
    {
      stop := stop + 1;
    }
    return Some(Span(start, stop));
  }

  /** `memcpy(value, src, |src|)` followed by the terminator. */
  method CopyTerminated(src: string, value: array<char>)
    requires |src| < value.Length
    modifies value
    ensures value[..|src|] == src && value[|src|] == '\0'
    ensures value[|src| + 1..] == old(value[|src| + 1..])
  {
    var i := 0;
    while i < |src|
      invariant 0 <= i <= |src|
      invariant value[..i] == src[..i]
      invariant value[i..] == old(value[i..])
    {
      value[i] := src[i];
      i := i + 1;
      assert value[..i] == value[..i - 1] + [value[i - 1]];
    }
    value[|src|] := '\0';
  }

  /**
   * Writes the value of `key` into `value[..maxLen]` followed by a NUL and
   * answers true, or answers false and leaves `value` untouched.
   */
  method ParseJsonValueInto(json: string, key: string, value: array<char>, maxLen: nat)
    returns (found: bool)
    requires 1 <= maxLen <= value.Length
    modifies value
    ensures found <==> ParseJsonValue(json, key, maxLen).Some?
    ensures found ==>
      var v := ParseJsonValue(json, key, maxLen).value;
      value[..|v|] == v && value[|v|] == '\0' && value[|v| + 1..] == old(value[|v| + 1..])
    ensures !found ==> value[..] == old(value[..])
  {
    var t := CStr(json);
    var span := LocateValue(t, SearchKey(key));
    if span.None? {
      return false;
    }
    var len := span.value.stop - span.value.start;
    if len >= maxLen {
      len := maxLen - 1;
    }
    CopyTerminated(t[span.value.start..span.value.start + len], value);
    found := true;
  }
}
