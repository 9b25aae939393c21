/** The client's choice of a fresh id: the candidate itself when no record
    uses it, otherwise the candidate followed by `-1`, `-2`, … up to the
    first one nobody uses. */
module FreshIds {
  import opened Records

  function DigitChar(d: nat): (c: char)
    requires d < 10
    ensures '0' <= c <= '9'
  {
    ('0' as int + d) as char
  }

  function DigitValue(c: char): nat {
    if '0' <= c <= '9' then c as int - '0' as int else 0
  }

  /** The decimal spelling of `n`, as a template literal `${n}` writes it. */
  function NatToString(n: nat): (s: string)
    ensures s != []
    ensures forall i :: 0 <= i < |s| ==> '0' <= s[i] <= '9'
  {
    if n < 10 then [DigitChar(n)] else NatToString(n / 10) + [DigitChar(n % 10)]
  }

  /** Reads a string of decimal digits back as a number. */
  function ParseNat(s: string): nat {
    if s == [] then 0 else ParseNat(s[..|s| - 1]) * 10 + DigitValue(s[|s| - 1])
  }

  /** Reading a spelled-out number gives the number back, so two numbers
      with the same spelling are equal. */
  lemma {:induction false} ParseNatToString(n: nat)
    ensures ParseNat(NatToString(n)) == n
  {
    if n >= 10 {
      var s := NatToString(n);
      assert s[..|s| - 1] == NatToString(n / 10);
      ParseNatToString(n / 10);
    }
  }

  /** The `k`-th id tried: the candidate itself, then `candidate-k`. */
  function Attempt(candidate: string, k: nat): string {
    if k == 0 then candidate else candidate + "-" + NatToString(k)
  }

  /** Different attempts are different ids. */
  lemma AttemptInjective(candidate: string, i: nat, j: nat)
    requires Attempt(candidate, i) == Attempt(candidate, j)
    ensures i == j
  {
    if i != 0 && j != 0 {
      var a, b := Attempt(candidate, i), Attempt(candidate, j);
      assert a[|candidate| + 1..] == NatToString(i);
      assert b[|candidate| + 1..] == NatToString(j);
      ParseNatToString(i);
      ParseNatToString(j);
    }
  }

  /** The first `m` attempts, all distinct. */
  function Attempts(candidate: string, m: nat): (r: set<string>)
    ensures |r| == m
    ensures forall k :: 0 <= k < m ==> Attempt(candidate, k) in r
    ensures forall s :: s in r ==> exists k :: 0 <= k < m && s == Attempt(candidate, k)
  {
    if m == 0 then {}
    else
      var before := Attempts(candidate, m - 1);
      assert Attempt(candidate, m - 1) !in before by {
        if Attempt(candidate, m - 1) in before {
          var k :| 0 <= k < m - 1 && Attempt(candidate, m - 1) == Attempt(candidate, k);
          AttemptInjective(candidate, k, m - 1);
        }
      }
      before + {Attempt(candidate, m - 1)}
  }

  /** If the first `m` attempts are all taken, there are at least `m` records. */
  lemma AttemptsTakenBound(candidate: string, existing: seq<Project>, m: nat)
    requires forall k :: 0 <= k < m ==> HasId(existing, Attempt(candidate, k))
    ensures m <= |existing|
  {
    var a, ids := Attempts(candidate, m), Ids(existing);
    assert a <= ids;
    assert ids == a + (ids - a);
  }

  /** `Attempt(candidate, n)` is the id the loop settles on: it is free and
      every earlier attempt is taken. */
  ghost predicate FirstFreeAt(candidate: string, existing: seq<Project>, n: nat) {
    && !HasId(existing, Attempt(candidate, n))
    && forall k :: 0 <= k < n ==> HasId(existing, Attempt(candidate, k))
  }

  /** At most one attempt is the first free one. */
  lemma FirstFreeUnique(candidate: string, existing: seq<Project>, n: nat, m: nat)
    requires FirstFreeAt(candidate, existing, n) && FirstFreeAt(candidate, existing, m)
    ensures n == m
  {
  }

  /** `let finalId = idCandidate; let n = 1; while (taken) finalId = `${idCandidate}-${n++}``:
      the loop ends, its result is not in use, it is the candidate when that
      is free, and otherwise the candidate with the smallest free suffix. */
  method FreshId(candidate: string, existing: seq<Project>) returns (finalId: string)
    ensures !HasId(existing, finalId)
    ensures !HasId(existing, candidate) ==> finalId == candidate
    ensures exists n: nat :: n <= |existing| && FirstFreeAt(candidate, existing, n) && finalId == Attempt(candidate, n)
  {
    finalId := candidate;
    var n: nat := 1;
    while HasId(existing, finalId)
      invariant 1 <= n <= |existing| + 1
      invariant finalId == Attempt(candidate, n - 1)
      invariant forall k :: 0 <= k < n - 1 ==> HasId(existing, Attempt(candidate, k))
      decreases |existing| + 1 - n
    {
      AttemptsTakenBound(candidate, existing, n);
      finalId := candidate + "-" + NatToString(n);
      n := n + 1;
    }
    assert FirstFreeAt(candidate, existing, n - 1);
  }

  /** A second record with a taken candidate gets the suffix `-1`. */
  lemma SecondGetsSuffixOne(candidate: string, existing: seq<Project>)
    requires HasId(existing, candidate) && !HasId(existing, candidate + "-1")
    ensures FirstFreeAt(candidate, existing, 1)
    ensures Attempt(candidate, 1) == candidate + "-1"
  {
    assert NatToString(1) == "1";
  }
}
