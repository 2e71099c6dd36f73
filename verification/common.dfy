/** Small vocabulary shared by the backend and frontend models: optional
    values, results that carry an error message, ASCII character classes and
    counting over sequences. */
module Common {

  datatype Option<+T> = None | Some(value: T)

  /** The outcome of an operation that may throw: `Err` carries the message
      of the exception. */
  datatype Result<+T> = Ok(value: T) | Err(msg: string)

  predicate IsDigit(c: char) { '0' <= c <= '9' }

  predicate IsAsciiLetter(c: char) { 'a' <= c <= 'z' || 'A' <= c <= 'Z' }

  /** `\w` of a regular expression, over ASCII. */
  predicate IsWordChar(c: char) { IsAsciiLetter(c) || IsDigit(c) || c == '_' }

  function DigitValue(c: char): (d: nat)
    requires IsDigit(c)
    ensures d < 10
  {
    c as int - '0' as int
  }

  /** `\s` of a JavaScript regular expression: white space and line
      terminators. */
  predicate IsJsSpace(c: char)
  {
    c == ' ' || ('\t' <= c <= '\r') || c == '\U{00A0}' || c == '\U{1680}' || ('\U{2000}' <= c <= '\U{200A}')
    || c == '\U{2028}' || c == '\U{2029}' || c == '\U{202F}' || c == '\U{205F}' || c == '\U{3000}' || c == '\U{FEFF}'
  }

  /** JavaScript's `s.slice(start, end)`: a negative bound counts from the
      end, bounds are clamped to the sequence, and crossed bounds give the
      empty sequence. */
  function JsSlice<T>(s: seq<T>, start: int, end: int): (r: seq<T>)
    ensures |r| <= |s|
    ensures 0 <= start <= end ==>
      r == s[(if start < |s| then start else |s|)..(if end < |s| then end else |s|)]
  {
    var from := if start < 0 then (if |s| + start < 0 then 0 else |s| + start) else (if start < |s| then start else |s|);
    var to := if end < 0 then (if |s| + end < 0 then 0 else |s| + end) else (if end < |s| then end else |s|);
    if from < to then s[from..to] else []
  }

  /** JavaScript truthiness of an optional string: present and non-empty. */
  predicate Truthy(s: Option<string>) { s.Some? && s.value != "" }

  /** JavaScript's `s || fallback` for an optional string. */
  function OrElse(s: Option<string>, fallback: string): (r: string)
    ensures Truthy(s) ==> r == s.value
    ensures !Truthy(s) ==> r == fallback
  {
    if Truthy(s) then s.value else fallback
  }

  /** JavaScript's `parts.join(sep)` (and Python's `sep.join(parts)`). */
  function Join(parts: seq<string>, sep: string): string
  {
    if parts == [] then "" else if |parts| == 1 then parts[0] else parts[0] + sep + Join(parts[1..], sep)
  }

  /** True when no value occurs twice in `s`. */
  predicate Distinct<T(==)>(s: seq<T>)
  {
    forall i, j :: 0 <= i < j < |s| ==> s[i] != s[j]
  }

  /** Index of the first occurrence of `x` in `s`. */
  function FirstIndex<T(==)>(s: seq<T>, x: T): (i: nat)
    requires x in s
    ensures i < |s| && s[i] == x
    ensures forall j :: 0 <= j < i ==> s[j] != x
  {
    if s[0] == x then 0 else 1 + FirstIndex(s[1..], x)
  }

  /** Appending to a sequence does not move the first occurrence of a value
      it already holds. */
  lemma FirstIndexAppend<T>(s: seq<T>, x: T, y: T)
    requires y in s
    ensures FirstIndex(s + [x], y) == FirstIndex(s, y)
  {
    assert (s + [x])[FirstIndex(s, y)] == y;
  }

  /** The first occurrence of a value appended to a sequence without it is
      the new last position. */
  lemma FirstIndexNew<T>(s: seq<T>, x: T)
    requires x !in s
    ensures FirstIndex(s + [x], x) == |s|
  {
    assert (s + [x])[|s|] == x;
    assert forall k :: 0 <= k < |s| ==> (s + [x])[k] == s[k];
  }

  /** `a` and `b` both occur in `s`, `a` first. */
  predicate FirstBefore<T(==)>(s: seq<T>, a: T, b: T)
  {
    a in s && b in s && FirstIndex(s, a) < FirstIndex(s, b)
  }

  /** `Array.from(new Set(s))`: the values of `s` without repetitions, in
      the order a `Set` keeps them, that of their first insertion. */
  function Uniq<T(==)>(s: seq<T>): seq<T>
  {
    if s == [] then []
    else
      var u := Uniq(s[..|s| - 1]);
      if s[|s| - 1] in u then u else u + [s[|s| - 1]]
  }

  /** The set keeps every value of `s`, once. */
  lemma {:induction false} UniqMembers<T>(s: seq<T>)
    ensures forall i :: 0 <= i < |Uniq(s)| ==> Uniq(s)[i] in s
    ensures forall x :: x in s ==> x in Uniq(s)
    ensures Distinct(Uniq(s))
  {
    if s != [] {
      var init := s[..|s| - 1];
      UniqMembers(init);
      assert s == init + [s[|s| - 1]];
    }
  }

  /** Adding a value to the set: a value it holds changes nothing, a new
      one goes last. */
  lemma UniqSnoc<T>(s: seq<T>, x: T)
    ensures x in Uniq(s) <==> x in s
    ensures Uniq(s + [x]) == if x in s then Uniq(s) else Uniq(s) + [x]
  {
    UniqMembers(s);
    assert (s + [x])[..|s|] == s;
  }

  /** The set keeps the values in the order they first appear in `s`. */
  lemma {:induction false} UniqOrder<T>(s: seq<T>)
    ensures forall i, j :: 0 <= i < j < |Uniq(s)| ==> FirstBefore(s, Uniq(s)[i], Uniq(s)[j])
  {
    if s != [] {
      var init := s[..|s| - 1];
      var x := s[|s| - 1];
      var u := Uniq(init);
      UniqOrder(init);
      UniqMembers(init);
      assert s == init + [x];
      forall i, j | 0 <= i < j < |Uniq(s)|
        ensures FirstBefore(s, Uniq(s)[i], Uniq(s)[j])
      {
        assert Uniq(s)[i] == u[i] && u[i] in init;
        FirstIndexAppend(init, x, u[i]);
        if j < |u| {
          assert Uniq(s)[j] == u[j] && u[j] in init;
          FirstIndexAppend(init, x, u[j]);
          assert FirstBefore(init, u[i], u[j]);
        } else {
          assert Uniq(s)[j] == x && x !in init;
          FirstIndexNew(init, x);
        }
      }
    }
  }
}
