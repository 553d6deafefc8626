/** Shared vocabulary of the API model: optional values, the error taxonomy the
    services raise (NestJS exceptions), identifiers and timestamps, and the
    JavaScript string helpers the services call (`trim`, `toLowerCase`,
    `toUpperCase`, truthiness of an optional string). */
module Common {

  /** `undefined`/`null` versus a present value. */
  datatype Option<+T> = None | Some(value: T) {
    function GetOr(default: T): T {
      match this
      case Some(v) => v
      case None => default
    }
  }

  /** The exceptions the services throw, by HTTP class. `Internal` stands for
      anything Nest turns into a 500: a plain `Error`, or a Prisma failure such
      as a `connect` to a row that does not exist. */
  datatype Error = NotFound | BadRequest | Conflict | Forbidden | Unauthorized | Internal

  datatype Result<+T> = Success(value: T) | Failure(error: Error)

  /** Row identifiers (uuids in the database); opaque strings here. */
  type Id = string

  /** A point in time (`new Date()` or a parsed date string); only its order matters. */
  type Time = int

  /** JavaScript truthiness of an optional string: present and not empty. */
  predicate Truthy(s: Option<string>) {
    s.Some? && s.value != ""
  }

  /** `toDateOrNull` (`v ? new Date(v) : null`): a non-empty string is parsed
      with `parse`, which stands for the `Date` constructor; anything else is null. */
  function ToDateOrNull(v: Option<string>, parse: string -> Time): (r: Option<Time>)
    ensures r.Some? <==> Truthy(v)
    ensures r.Some? ==> r.value == parse(v.value)
  {
    if Truthy(v) then Some(parse(v.value)) else None
  }

  /** The characters `String.prototype.trim` removes (ECMAScript WhiteSpace and
      LineTerminator). */
  predicate IsSpace(c: char) {
    c == ' ' || c == '\t' || c == '\n' || c == '\r' || c == '\U{000B}' || c == '\U{000C}'
    || c == '\U{00A0}' || c == '\U{1680}' || ('\U{2000}' <= c <= '\U{200A}')
    || c == '\U{2028}' || c == '\U{2029}' || c == '\U{202F}' || c == '\U{205F}'
    || c == '\U{3000}' || c == '\U{FEFF}'
  }

  predicate AllSpace(s: string) {
    forall k :: 0 <= k < |s| ==> IsSpace(s[k])
  }

  /** Leading whitespace removed: the result is a suffix of `s`, what was dropped is
      whitespace, and the result does not start with whitespace. */
  function TrimStart(s: string): (r: string)
    ensures |r| <= |s| && r == s[|s| - |r|..]
    ensures AllSpace(s[..|s| - |r|])
    ensures r == [] || !IsSpace(r[0])
  {
    if s == [] || !IsSpace(s[0]) then s else TrimStart(s[1..])
  }

  /** Trailing whitespace removed: the result is a prefix of `s`, what was dropped is
      whitespace, and the result does not end with whitespace. */
  function TrimEnd(s: string): (r: string)
    ensures |r| <= |s| && r == s[..|r|]
    ensures AllSpace(s[|r|..])
    ensures r == [] || !IsSpace(r[|r| - 1])
  {
    if s == [] || !IsSpace(s[|s| - 1]) then s else TrimEnd(s[..|s| - 1])
  }

  /** `s.trim()`. */
  function Trim(s: string): (r: string)
    ensures r == [] || (!IsSpace(r[0]) && !IsSpace(r[|r| - 1]))
  {
    TrimEnd(TrimStart(s))
  }

  /** A string is blank after `trim()` exactly when it consists of whitespace only. */
  lemma TrimEmptyIffAllSpace(s: string)
    ensures Trim(s) == [] <==> AllSpace(s)
  {
    var t := TrimStart(s);
    if Trim(s) == [] {
      assert AllSpace(t[0..]);
      assert t == [];
      assert s[..|s|] == s;
    } else {
      var r := Trim(s);
      assert r[0] == t[0];
      assert t[0] == s[|s| - |t|];
    }
  }

  /** Trimming twice is trimming once. */
  lemma TrimIdempotent(s: string)
    ensures Trim(Trim(s)) == Trim(s)
  {
    var r := Trim(s);
    if r != [] {
      assert TrimStart(r) == r;
      assert TrimEnd(r) == r;
    }
  }

  /** ASCII case mapping; `toLowerCase`/`toUpperCase` on non-ASCII letters are not modelled. */
  function LowerChar(c: char): char {
    if 'A' <= c <= 'Z' then (c as int + 32) as char else c
  }

  function UpperChar(c: char): char {
    if 'a' <= c <= 'z' then (c as int - 32) as char else c
  }

  /** `s.toLowerCase()`: same length, every character mapped, and no upper-case
      ASCII letter is left. */
  function ToLower(s: string): (r: string)
    ensures |r| == |s|
    ensures forall k :: 0 <= k < |s| ==> r[k] == LowerChar(s[k])
    ensures forall k :: 0 <= k < |r| ==> !('A' <= r[k] <= 'Z')
  {
    seq(|s|, k requires 0 <= k < |s| => LowerChar(s[k]))
  }

  /** `s.toUpperCase()`: same length, every character mapped, and no lower-case
      ASCII letter is left. */
  function ToUpper(s: string): (r: string)
    ensures |r| == |s|
    ensures forall k :: 0 <= k < |s| ==> r[k] == UpperChar(s[k])
    ensures forall k :: 0 <= k < |r| ==> !('a' <= r[k] <= 'z')
  {
    seq(|s|, k requires 0 <= k < |s| => UpperChar(s[k]))
  }

  /** Lower-casing is idempotent, so a key that was stored lower-cased is found
      again by a lower-cased lookup. */
  lemma ToLowerIdempotent(s: string)
    ensures ToLower(ToLower(s)) == ToLower(s)
  {
  }

  /** `needle` occurs in `hay` as a contiguous substring. */
  predicate Contains(hay: string, needle: string) {
    exists i :: 0 <= i <= |hay| - |needle| && OccursAt(hay, needle, i)
  }

  predicate OccursAt(hay: string, needle: string, i: int)
    requires 0 <= i <= |hay| - |needle|
  {
    hay[i..i + |needle|] == needle
  }

  /** Case-insensitive substring test (Prisma `contains` with `mode: 'insensitive'`,
      with ASCII case folding standing in for the database collation). */
  predicate ContainsInsensitive(hay: string, needle: string) {
    Contains(ToLower(hay), ToLower(needle))
  }

  function Min(a: int, b: int): int {
    if a <= b then a else b
  }

  function Max(a: int, b: int): int {
    if a >= b then a else b
  }

  /** The length of the longest string of a finite set, used to show that a fresh
      identifier always exists. */
  ghost function MaxLength(s: set<string>): (n: nat)
    ensures forall x :: x in s ==> |x| <= n
    decreases s
  {
    if s == {} then 0
    else
      var x :| x in s;
      Max(|x|, MaxLength(s - {x}))
  }

  /** The database's uuid generator never runs dry: some identifier is unused. */
  lemma FreshIdExists(used: set<Id>)
    ensures exists id: Id :: id !in used
  {
    var id: Id := seq(MaxLength(used) + 1, _ => 'x');
    assert id !in used;
  }
}
