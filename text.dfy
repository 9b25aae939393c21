/** String helpers shared by the server and the client: JavaScript's `trim()`
    and the trimming and blank tests built on it. Whitespace is the ASCII
    part of JavaScript's `\s` class (space, tab, line feed, vertical tab,
    form feed, carriage return). */
module Text {

  predicate IsSpace(c: char) {
    c == ' ' || c == '\t' || c == '\n' || c == '\r' || c as int == 0x0B || c as int == 0x0C
  }

  predicate IsHyphen(c: char) {
    c == '-'
  }

  /** The two character classes the trimming and collapsing regexes use. */
  datatype CharClass = Whitespace | Hyphen

  predicate In(k: CharClass, c: char) {
    match k
    case Whitespace => IsSpace(c)
    case Hyphen => IsHyphen(c)
  }

  /** Drops the longest prefix of `s` whose characters all satisfy `p`. */
  function LTrim(s: string, p: CharClass): (r: string)
    ensures |r| <= |s| && r == s[|s| - |r|..]
    ensures r == [] || !In(p, r[0])
    ensures forall i :: 0 <= i < |s| - |r| ==> In(p, s[i])
  {
    if s != [] && In(p, s[0]) then LTrim(s[1..], p) else s
  }

  /** Drops the longest suffix of `s` whose characters all satisfy `p`. */
  function RTrim(s: string, p: CharClass): (r: string)
    ensures |r| <= |s| && r == s[..|r|]
    ensures r == [] || !In(p, r[|r| - 1])
    ensures forall i :: |r| <= i < |s| ==> In(p, s[i])
  {
    if s != [] && In(p, s[|s| - 1]) then RTrim(s[..|s| - 1], p) else s
  }

  /** JavaScript's `s.trim()`. */
  function Trim(s: string): (r: string)
    ensures r == [] || (!IsSpace(r[0]) && !IsSpace(r[|r| - 1]))
  {
    RTrim(LTrim(s, Whitespace), Whitespace)
  }

  /** `s.trim() === ''` */
  predicate IsBlank(s: string) {
    Trim(s) == []
  }

  /** Only whitespace is blank: a string trims to nothing exactly when every
      character of it is whitespace. */
  lemma BlankIffAllSpace(s: string)
    ensures IsBlank(s) <==> forall i :: 0 <= i < |s| ==> IsSpace(s[i])
  {
    var t := LTrim(s, Whitespace);
    if t != [] {
      assert !IsSpace(t[0]);
      assert RTrim(t, Whitespace) != [];
      assert s[|s| - |t|] == t[0];
    }
  }

  /** Trimming text that neither starts nor ends with whitespace changes nothing. */
  lemma TrimUntrimmed(s: string)
    requires s == [] || (!IsSpace(s[0]) && !IsSpace(s[|s| - 1]))
    ensures Trim(s) == s
  {
  }
}
