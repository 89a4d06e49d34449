/** The few JavaScript runtime behaviours the view core relies on: values of a
    loosely typed field, truthiness, `String.prototype.trim`,
    `String.prototype.includes`, `startsWith` and `Array.prototype.slice`. */
module Js {

  datatype Option<+T> = None | Some(value: T)

  /** A JavaScript value as far as the raw `images` field can hold one.
      Numbers are integers here (no NaN, no fractions). */
  datatype JsValue =
    | Undefined
    | Null
    | Bool(b: bool)
    | Num(n: int)
    | Str(s: string)
    | Arr(items: seq<JsValue>)
    | Obj

  /** `Math.min` on integers. */
  function Min(x: int, y: int): (m: int)
    ensures m <= x && m <= y && (m == x || m == y)
  {
    if x < y then x else y
  }

  /** JavaScript truthiness: `!v` is false exactly for these values. */
  predicate Truthy(v: JsValue)
    ensures Truthy(v) ==> !v.Undefined? && !v.Null?
    ensures v.Arr? || v.Obj? ==> Truthy(v)
  {
    match v
    case Undefined => false
    case Null => false
    case Bool(b) => b
    case Num(n) => n != 0
    case Str(s) => s != ""
    case Arr(_) => true
    case Obj => true
  }

  /** The characters `trim` removes: ECMAScript WhiteSpace (TAB, VT, FF, ZWNBSP
      and every space separator of category Zs) and LineTerminator (LF, CR,
      LINE SEPARATOR, PARAGRAPH SEPARATOR). */
  predicate IsWhitespace(c: char) {
    || c == '\t' || c == '\U{B}' || c == '\U{C}' || c == '\U{FEFF}'
    || c == ' ' || c == '\U{A0}' || c == '\U{1680}' || ('\U{2000}' <= c <= '\U{200A}')
    || c == '\U{202F}' || c == '\U{205F}' || c == '\U{3000}'
    || c == '\n' || c == '\r' || c == '\U{2028}' || c == '\U{2029}'
  }

  /** `s` without its leading whitespace. */
  function TrimStart(s: string): (r: string)
    ensures |r| <= |s| && r == s[|s| - |r|..]
    ensures forall k :: 0 <= k < |s| - |r| ==> IsWhitespace(s[k])
    ensures r == [] || !IsWhitespace(r[0])
  {
    if s != [] && IsWhitespace(s[0]) then TrimStart(s[1..]) else s
  }

  /** `s` without its trailing whitespace. */
  function TrimEnd(s: string): (r: string)
    ensures |r| <= |s| && r == s[..|r|]
    ensures forall k :: |r| <= k < |s| ==> IsWhitespace(s[k])
    ensures r == [] || !IsWhitespace(r[|r| - 1])
  {
    if s != [] && IsWhitespace(s[|s| - 1]) then TrimEnd(s[..|s| - 1]) else s
  }

  /** `String.prototype.trim`. */
  function Trim(s: string): (r: string)
    ensures |r| <= |s|
    ensures r == [] || (!IsWhitespace(r[0]) && !IsWhitespace(r[|r| - 1]))
  {
    TrimEnd(TrimStart(s))
  }

  /** Trailing whitespace cut from a suffix `t == s[i..]` of `s` is trailing
      whitespace of `s` itself. */
  lemma TrimEndOfSuffix(s: string, t: string, i: nat) returns (j: nat)
    requires i <= |s| && t == s[i..]
    ensures i <= j <= |s| && TrimEnd(t) == s[i..j]
    ensures forall k :: j <= k < |s| ==> IsWhitespace(s[k])
  {
    var u := TrimEnd(t);
    j := i + |u|;
    forall k | j <= k < |s|
      ensures IsWhitespace(s[k])
    {
      assert s[k] == t[k - i];
    }
  }

  /** `Trim(s)` is the contiguous middle of `s` left once a whitespace-only prefix
      and a whitespace-only suffix are cut off, and it neither starts nor ends
      with whitespace. */
  lemma TrimSpec(s: string) returns (i: nat, j: nat)
    ensures i <= j <= |s| && Trim(s) == s[i..j]
    ensures forall k :: 0 <= k < i ==> IsWhitespace(s[k])
    ensures forall k :: j <= k < |s| ==> IsWhitespace(s[k])
    ensures Trim(s) == [] || (!IsWhitespace(Trim(s)[0]) && !IsWhitespace(Trim(s)[|Trim(s)| - 1]))
  {
    var t := TrimStart(s);
    i := |s| - |t|;
    j := TrimEndOfSuffix(s, t, i);
    assert TrimEnd(t) != [] ==> TrimEnd(t)[0] == t[0];
  }

  /** Trimming twice is trimming once: every string `Trim` returns is trimmed. */
  lemma TrimIdempotent(s: string)
    ensures Trim(Trim(s)) == Trim(s)
  {
    var t := Trim(s);
    var _, _ := TrimSpec(s);
    assert TrimStart(t) == t;
    assert TrimEnd(t) == t;
  }

  /** `hay.includes(needle)`: `needle` occurs in `hay` at some position. */
  predicate Includes(hay: string, needle: string)
    ensures needle == [] ==> Includes(hay, needle)
    ensures Includes(hay, needle) ==> |needle| <= |hay|
  {
    assert needle == [] ==> needle <= hay[0..];
    exists i | 0 <= i <= |hay| - |needle| :: needle <= hay[i..]
  }

  /** `s.startsWith(prefix)`. */
  predicate StartsWith(s: string, prefix: string)
    ensures StartsWith(s, prefix) <==> |prefix| <= |s| && s[..|prefix|] == prefix
  {
    prefix <= s
  }

  /** How `Array.prototype.slice` reads an index: a negative one counts back
      from the end, and the result is clamped to `[0, len]`. */
  function RelativeIndex(k: int, len: nat): (r: nat)
    ensures r <= len
    ensures 0 <= k ==> r == if k < len then k else len
  {
    if k < 0 then (if len + k < 0 then 0 else len + k)
    else if k < len then k else len
  }

  /** `s.slice(start, end)`. */
  function Slice<T>(s: seq<T>, start: int, end: int): (r: seq<T>)
    ensures |r| <= |s|
    ensures start == 0 && end >= |s| ==> r == s
  {
    var from, to := RelativeIndex(start, |s|), RelativeIndex(end, |s|);
    if from < to then s[from..to] else []
  }

  /** With non-negative bounds, `slice` is the plain contiguous run between the
      bounds clamped to the length, and never holds more than `end - start`
      elements. */
  lemma SliceNonNegative<T>(s: seq<T>, start: int, end: int)
    requires 0 <= start <= end
    ensures start >= |s| ==> Slice(s, start, end) == []
    ensures start < |s| ==> Slice(s, start, end) == s[start..if end < |s| then end else |s|]
    ensures |Slice(s, start, end)| <= end - start
  {
  }
}
