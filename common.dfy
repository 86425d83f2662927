/** Values shared by every handler: optional values, HTTP replies, the
    shapes a field of a JSON request body can take, JSON payloads and the
    JavaScript string helpers the handlers call (`startsWith`, `trim`). */
module Common {

  datatype Option<+T> = None | Some(value: T)

  /** An HTTP reply: a status with a JSON value, or a status with a message. */
  datatype Reply<+T> = Ok(status: int, value: T) | Fail(status: int, message: string)

  /** A calendar day; dates are whole day numbers in this model. */
  type Day = int

  /** A non-empty string: the only strings JavaScript treats as truthy. */
  type Text = s: string | |s| > 0 witness "?"

  /** One field of a request body after destructuring: missing (`undefined`),
      JSON `null`, the empty string, or a non-empty value. */
  datatype Input<+T> = Undefined | Null | Empty | Given(value: T)

  /** JavaScript truthiness of a body field: only a given, non-empty value is truthy. */
  predicate Truthy<T>(v: Input<T>) {
    v.Given?
  }

  /** `v || null`: the value when it is truthy, otherwise null. */
  function OrNull<T>(v: Input<T>): (r: Option<T>)
    ensures r.Some? <==> Truthy(v)
    ensures r.Some? ==> v == Given(r.value)
  {
    if v.Given? then Some(v.value) else None
  }

  /** `v || fallback`. */
  function OrElse<T>(v: Input<T>, fallback: T): (r: T)
    ensures Truthy(v) ==> v == Given(r)
    ensures !Truthy(v) ==> r == fallback
  {
    if v.Given? then v.value else fallback
  }

  /** A JSON value, as a decoded token payload holds it. */
  datatype Json =
    | JNull
    | JBool(b: bool)
    | JNum(n: int)
    | JStr(s: string)
    | JArr(items: seq<Json>)
    | JObj(fields: map<string, Json>)

  /** JavaScript truthiness of a JSON value (numbers are integers here, so NaN does not arise). */
  predicate JsonTruthy(j: Json) {
    match j
    case JNull => false
    case JBool(b) => b
    case JNum(n) => n != 0
    case JStr(s) => s != ""
    case JArr(_) => true
    case JObj(_) => true
  }

  /** `j?.name` for a JSON value: a property of an object, `undefined` (None) otherwise. */
  function Property(j: Json, name: string): (r: Option<Json>)
    ensures r.Some? <==> j.JObj? && name in j.fields
  {
    if j.JObj? && name in j.fields then Some(j.fields[name]) else None
  }

  /** `s.startsWith(prefix)`. */
  predicate StartsWith(s: string, prefix: string) {
    |prefix| <= |s| && s[..|prefix|] == prefix
  }

  /** The characters `String.prototype.trim` removes: white space and line terminators. */
  predicate IsJsWhitespace(c: char) {
    c == ' ' || c == '\t' || c == '\n' || c == '\r' || c == '\U{000B}' || c == '\U{000C}'
    || c == '\U{00A0}' || c == '\U{FEFF}' || c == '\U{1680}'
    || ('\U{2000}' <= c <= '\U{200A}')
    || c == '\U{2028}' || c == '\U{2029}' || c == '\U{202F}' || c == '\U{205F}' || c == '\U{3000}'
  }

  function TrimStart(s: string): (r: string)
    ensures |r| <= |s| && r == s[|s| - |r|..]
    ensures r == [] || !IsJsWhitespace(r[0])
    ensures forall i :: 0 <= i < |s| - |r| ==> IsJsWhitespace(s[i])
  {
    if s != [] && IsJsWhitespace(s[0]) then TrimStart(s[1..]) else s
  }

  function TrimEnd(s: string): (r: string)
    ensures |r| <= |s| && r == s[..|r|]
    ensures r == [] || !IsJsWhitespace(r[|r| - 1])
    ensures forall i :: |r| <= i < |s| ==> IsJsWhitespace(s[i])
  {
    if s != [] && IsJsWhitespace(s[|s| - 1]) then TrimEnd(s[..|s| - 1]) else s
  }

  /** `s` is `r` with the white space `s[..k]` in front and only white space behind, and `r` neither starts nor
      ends with white space: `r` is what `s.trim()` returns. */
  predicate TrimmedAt(s: string, k: nat, r: string) {
    && k + |r| <= |s| && r == s[k..k + |r|]
    && (forall i :: 0 <= i < k ==> IsJsWhitespace(s[i]))
    && (forall i :: k + |r| <= i < |s| ==> IsJsWhitespace(s[i]))
    && (r == [] || (!IsJsWhitespace(r[0]) && !IsJsWhitespace(r[|r| - 1])))
  }

  /** `s.trim()`: drops leading and trailing white space, keeps the rest. */
  function Trim(s: string): (r: string)
    ensures TrimmedAt(s, |s| - |TrimStart(s)|, r)
  {
    TrimSplitsInput(s);
    TrimEnd(TrimStart(s))
  }

  lemma TrimSplitsInput(s: string)
    ensures TrimmedAt(s, |s| - |TrimStart(s)|, TrimEnd(TrimStart(s)))
  {
    TrimKeepsMiddle(s);
    TrimDropsTrailing(s);
    TrimEdges(s);
  }

  lemma TrimKeepsMiddle(s: string)
    ensures var t := TrimStart(s); var k := |s| - |t|; var r := TrimEnd(t);
            k + |r| <= |s| && r == s[k..k + |r|]
  {
  }

  lemma TrimDropsTrailing(s: string)
    ensures var t := TrimStart(s); var k := |s| - |t|; var r := TrimEnd(t);
            forall i :: k + |r| <= i < |s| ==> IsJsWhitespace(s[i])
  {
    var t := TrimStart(s);
    var k := |s| - |t|;
    var r := TrimEnd(t);
    forall i | k + |r| <= i < |s| ensures IsJsWhitespace(s[i]) {
      assert s[i] == t[i - k];
    }
  }

  lemma TrimEdges(s: string)
    ensures var r := TrimEnd(TrimStart(s));
            r == [] || (!IsJsWhitespace(r[0]) && !IsJsWhitespace(r[|r| - 1]))
  {
    var t := TrimStart(s);
    var r := TrimEnd(t);
    if r != [] {
      assert r[0] == t[0];
    }
  }

  /** For a given amount of leading white space there is one trimmed string: the contract of `Trim` determines
      its result. */
  lemma TrimmedAtUnique(s: string, k: nat, r1: string, r2: string)
    requires TrimmedAt(s, k, r1) && TrimmedAt(s, k, r2)
    ensures r1 == r2
  {
  }

  /** Trimming twice is trimming once. */
  lemma TrimIdempotent(s: string)
    ensures Trim(Trim(s)) == Trim(s)
  {
    var r := Trim(s);
    NoEdgeWhitespaceTrimFixed(r);
  }

  /** A string without white space at either end is its own trim. */
  lemma NoEdgeWhitespaceTrimFixed(r: string)
    requires r == [] || (!IsJsWhitespace(r[0]) && !IsJsWhitespace(r[|r| - 1]))
    ensures Trim(r) == r
  {
    assert TrimStart(r) == r;
    if r != [] {
      assert TrimEnd(r) == r;
    }
  }

  /** A string that starts or ends with white space is not its own trim. */
  lemma EdgeWhitespaceTrimMoves(s: string)
    requires s != [] && (IsJsWhitespace(s[0]) || IsJsWhitespace(s[|s| - 1]))
    ensures Trim(s) != s
  {
  }
}
