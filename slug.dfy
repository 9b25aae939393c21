/** `slugify`: the client turns a project name into an id by trimming,
    lower-casing, turning whitespace runs into `-`, dropping every character
    outside `[A-Za-z0-9_-]`, collapsing hyphen runs and stripping hyphens at
    both ends. Lower-casing and whitespace are the ASCII ones. */
module Slug {
  import opened Text

  predicate IsUpper(c: char) {
    'A' <= c <= 'Z'
  }

  /** `[\w-]` */
  predicate IsSlugChar(c: char) {
    'a' <= c <= 'z' || IsUpper(c) || '0' <= c <= '9' || c == '_' || c == '-'
  }

  /** The characters a slug is made of: `[a-z0-9_-]`. */
  predicate IsSlugOutputChar(c: char) {
    'a' <= c <= 'z' || '0' <= c <= '9' || c == '_' || c == '-'
  }

  /** No hyphen follows another. */
  predicate NoDoubleHyphen(s: string) {
    forall i :: 0 <= i < |s| - 1 ==> !(s[i] == '-' && s[i + 1] == '-')
  }

  /** What every slug looks like. */
  predicate IsSlug(s: string) {
    && (forall i :: 0 <= i < |s| ==> IsSlugOutputChar(s[i]))
    && (s != [] ==> s[0] != '-' && s[|s| - 1] != '-')
    && NoDoubleHyphen(s)
  }

  function ToLower(c: char): (r: char)
    ensures !IsUpper(r)
    ensures IsUpper(c) ==> 'a' <= r <= 'z' && r as int - 'a' as int == c as int - 'A' as int
    ensures !IsUpper(c) ==> r == c
  {
    if IsUpper(c) then (c as int + 32) as char else c
  }

  /** `s.toLowerCase()` */
  function LowerCase(s: string): (r: string)
    ensures |r| == |s|
    ensures forall i :: 0 <= i < |s| ==> r[i] == ToLower(s[i])
  {
    if s == [] then [] else [ToLower(s[0])] + LowerCase(s[1..])
  }

  /** `s.replace(/P+/g, rep)` for the character class `p`: every maximal run
      of characters satisfying `p` becomes the single character `rep`. */
  function Collapse(s: string, p: CharClass, rep: char): (r: string)
    ensures s != [] ==> r != [] && r[0] == (if In(p, s[0]) then rep else s[0])
    decreases |s|
  {
    if s == [] then []
    else if In(p, s[0]) then [rep] + Collapse(LTrim(s[1..], p), p, rep)
    else [s[0]] + Collapse(s[1..], p, rep)
  }

  /** The text left after the first character when collapsing. */
  function CollapseRest(s: string, p: CharClass): (t: string)
    requires s != []
    ensures |t| < |s| && t == s[|s| - |t|..]
  {
    if In(p, s[0]) then LTrim(s[1..], p) else s[1..]
  }

  lemma CollapseUnfold(s: string, p: CharClass, rep: char)
    requires s != []
    ensures Collapse(s, p, rep) == [if In(p, s[0]) then rep else s[0]] + Collapse(CollapseRest(s, p), p, rep)
    ensures In(p, s[0]) ==> CollapseRest(s, p) == [] || !In(p, CollapseRest(s, p)[0])
  {
  }

  /** A collapsed text holds only `rep` and characters of `s` outside `p`. */
  lemma {:induction false} CollapseChars(s: string, p: CharClass, rep: char)
    ensures forall c :: c in Collapse(s, p, rep) ==> c == rep || (c in s && !In(p, c))
    decreases |s|
  {
    if s != [] {
      var t := CollapseRest(s, p);
      CollapseUnfold(s, p, rep);
      CollapseChars(t, p, rep);
      forall c | c in t ensures c in s {
        var k :| 0 <= k < |t| && t[k] == c;
        assert s[|s| - |t| + k] == c;
      }
    }
  }

  /** No two neighbouring characters of a collapsed text are in `p`. */
  lemma {:induction false} CollapseNoAdjacent(s: string, p: CharClass, rep: char)
    ensures forall i :: 0 <= i < |Collapse(s, p, rep)| - 1 ==>
      !(In(p, Collapse(s, p, rep)[i]) && In(p, Collapse(s, p, rep)[i + 1]))
    decreases |s|
  {
    if s != [] {
      var t := CollapseRest(s, p);
      CollapseUnfold(s, p, rep);
      CollapseNoAdjacent(t, p, rep);
      var rest := Collapse(t, p, rep);
      var r := Collapse(s, p, rep);
      forall i | 0 <= i < |r| - 1 ensures !(In(p, r[i]) && In(p, r[i + 1])) {
        if i > 0 { assert r[i] == rest[i - 1] && r[i + 1] == rest[i]; }
        else { assert r[1] == rest[0]; }
      }
    }
  }

  /** A text in which `rep` is the only character in `p` and no two
      characters in `p` are neighbours is left as it is. */
  lemma {:induction false} CollapseFixed(s: string, p: CharClass, rep: char)
    requires forall i :: 0 <= i < |s| ==> In(p, s[i]) ==> s[i] == rep
    requires forall i :: 0 <= i < |s| - 1 ==> !(In(p, s[i]) && In(p, s[i + 1]))
    ensures Collapse(s, p, rep) == s
  {
    if s != [] {
      CollapseFixed(s[1..], p, rep);
      if In(p, s[0]) {
        assert LTrim(s[1..], p) == s[1..] by {
          if s[1..] != [] { assert !In(p, s[1]); }
        }
      }
      assert s == [s[0]] + s[1..];
    }
  }

  /** A non-empty run of characters in `p` collapses to one `rep`. */
  lemma {:induction false} CollapseRun(w: string, b: string, p: CharClass, rep: char)
    requires w != [] && forall i :: 0 <= i < |w| ==> In(p, w[i])
    requires b == [] || !In(p, b[0])
    ensures Collapse(w + b, p, rep) == [rep] + Collapse(b, p, rep)
  {
    LTrimRun(w[1..], b, p);
    assert (w + b)[1..] == w[1..] + b;
  }

  lemma {:induction false} LTrimRun(w: string, b: string, p: CharClass)
    requires forall i :: 0 <= i < |w| ==> In(p, w[i])
    requires b == [] || !In(p, b[0])
    ensures LTrim(w + b, p) == b
  {
    if w == [] {
      assert w + b == b;
    } else {
      assert (w + b)[1..] == w[1..] + b;
      LTrimRun(w[1..], b, p);
    }
  }

  /** Trimming a text that still has a character outside `p` stops inside it. */
  lemma {:induction false} LTrimAppend(a: string, b: string, p: CharClass)
    requires LTrim(a, p) != []
    ensures LTrim(a + b, p) == LTrim(a, p) + b
  {
    if a != [] && In(p, a[0]) {
      assert (a + b)[1..] == a[1..] + b;
      LTrimAppend(a[1..], b, p);
    } else {
      assert a != [];
    }
  }

  /** Collapsing splits at a boundary where one side has no `p` character
      next to it. */
  lemma {:induction false} CollapseConcat(a: string, b: string, p: CharClass, rep: char)
    requires a == [] || !In(p, a[|a| - 1])
    ensures Collapse(a + b, p, rep) == Collapse(a, p, rep) + Collapse(b, p, rep)
    decreases |a|
  {
    if a == [] {
      assert a + b == b;
    } else {
      var ab := a + b;
      assert ab[0] == a[0];
      var head := [if In(p, a[0]) then rep else a[0]];
      var t := CollapseRest(a, p);
      RestConcat(a, b, p);
      CollapseUnfold(a, p, rep);
      CollapseUnfold(ab, p, rep);
      CollapseConcat(t, b, p, rep);
      AppendAssoc(head, Collapse(t, p, rep), Collapse(b, p, rep));
    }
  }

  lemma AppendAssoc(x: string, y: string, z: string)
    ensures (x + y) + z == x + (y + z)
  {
  }

  /** What is left after the first character of `a + b` is what is left of
      `a`, followed by `b`, when `a` ends outside `p`. */
  lemma RestConcat(a: string, b: string, p: CharClass)
    requires a != [] && !In(p, a[|a| - 1])
    ensures CollapseRest(a + b, p) == CollapseRest(a, p) + b
    ensures var t := CollapseRest(a, p); t == [] || !In(p, t[|t| - 1])
  {
    var ab := a + b;
    assert ab[0] == a[0];
    assert ab[1..] == a[1..] + b;
    if In(p, a[0]) {
      assert a[1..][|a[1..]| - 1] == a[|a| - 1];
      LTrimKeepsLast(a[1..], p);
      LTrimAppend(a[1..], b, p);
    } else if a[1..] != [] {
      assert a[1..][|a[1..]| - 1] == a[|a| - 1];
    }
  }

  /** Trimming a text that ends outside `p` keeps its last character. */
  lemma LTrimKeepsLast(a: string, p: CharClass)
    requires a != [] && !In(p, a[|a| - 1])
    ensures LTrim(a, p) != [] && LTrim(a, p)[|LTrim(a, p)| - 1] == a[|a| - 1]
  {
  }

  /** Between two whitespace-free ends, a whitespace run becomes one `-`. */
  lemma WhitespaceRunToHyphen(a: string, w: string, b: string)
    requires a == [] || !IsSpace(a[|a| - 1])
    requires w != [] && forall i :: 0 <= i < |w| ==> IsSpace(w[i])
    requires b == [] || !IsSpace(b[0])
    ensures Collapse(a + (w + b), Whitespace, '-') == Collapse(a, Whitespace, '-') + (['-'] + Collapse(b, Whitespace, '-'))
  {
    CollapseConcat(a, w + b, Whitespace, '-');
    CollapseRun(w, b, Whitespace, '-');
  }

  /** `s.replace(/[^\w-]+/g, '')`: keeps the characters of `[\w-]` in order. */
  function KeepSlugChars(s: string): (r: string)
    ensures forall i :: 0 <= i < |r| ==> IsSlugChar(r[i]) && r[i] in s
    ensures (forall i :: 0 <= i < |s| ==> IsSlugChar(s[i])) ==> r == s
  {
    if s == [] then []
    else
      var rest := KeepSlugChars(s[1..]);
      assert forall c :: c in s[1..] ==> c in s;
      assert s == [s[0]] + s[1..];
      if IsSlugChar(s[0]) then [s[0]] + rest else rest
  }

  /** `slugify(text)` */
  function Slugify(text: string): string {
    var spaced := Collapse(LowerCase(Trim(text)), Whitespace, '-');
    var collapsed := Collapse(KeepSlugChars(spaced), Hyphen, '-');
    RTrim(LTrim(collapsed, Hyphen), Hyphen)
  }

  predicate AllSlugOutput(s: string) {
    forall i :: 0 <= i < |s| ==> IsSlugOutputChar(s[i])
  }

  lemma NoUpperAfterLowering(s: string)
    ensures forall c :: c in Collapse(LowerCase(s), Whitespace, '-') ==> !IsUpper(c)
  {
    CollapseChars(LowerCase(s), Whitespace, '-');
  }

  lemma KeptAreOutputChars(s: string)
    requires forall c :: c in s ==> !IsUpper(c)
    ensures AllSlugOutput(KeepSlugChars(s))
  {
  }

  lemma CollapsedHyphens(s: string)
    requires AllSlugOutput(s)
    ensures AllSlugOutput(Collapse(s, Hyphen, '-'))
    ensures NoDoubleHyphen(Collapse(s, Hyphen, '-'))
  {
    var r := Collapse(s, Hyphen, '-');
    CollapseChars(s, Hyphen, '-');
    CollapseNoAdjacent(s, Hyphen, '-');
    forall i | 0 <= i < |r| ensures IsSlugOutputChar(r[i]) {
      if r[i] != '-' {
        assert r[i] in s;
      }
    }
  }

  lemma SliceKeepsShape(s: string, lo: nat, hi: nat)
    requires lo <= hi <= |s|
    requires AllSlugOutput(s) && NoDoubleHyphen(s)
    ensures AllSlugOutput(s[lo..hi]) && NoDoubleHyphen(s[lo..hi])
  {
    var t := s[lo..hi];
    assert forall i :: 0 <= i < |t| ==> t[i] == s[lo + i];
  }

  lemma StrippedIsSlug(s: string)
    requires AllSlugOutput(s) && NoDoubleHyphen(s)
    ensures IsSlug(RTrim(LTrim(s, Hyphen), Hyphen))
  {
    var left := LTrim(s, Hyphen);
    SliceKeepsShape(s, |s| - |left|, |s|);
    var r := RTrim(left, Hyphen);
    SliceKeepsShape(left, 0, |r|);
    if r != [] {
      assert r[0] == left[0];
      assert !IsHyphen(left[0]) && !IsHyphen(r[|r| - 1]);
    }
  }

  /** Every slug holds only `[a-z0-9_-]`, neither starts nor ends with `-`,
      and has no `--`. */
  lemma SlugifyWellFormed(text: string)
    ensures IsSlug(Slugify(text))
  {
    var spaced := Collapse(LowerCase(Trim(text)), Whitespace, '-');
    NoUpperAfterLowering(Trim(text));
    KeptAreOutputChars(spaced);
    CollapsedHyphens(KeepSlugChars(spaced));
    StrippedIsSlug(Collapse(KeepSlugChars(spaced), Hyphen, '-'));
  }

  /** A slug is its own slug, so slugifying twice is slugifying once. */
  lemma SlugFixedPoint(s: string)
    requires IsSlug(s)
    ensures Slugify(s) == s
  {
    assert forall i :: 0 <= i < |s| ==> !IsSpace(s[i]) && !IsUpper(s[i]) && IsSlugChar(s[i]) by {
      forall i | 0 <= i < |s| ensures !IsSpace(s[i]) && !IsUpper(s[i]) && IsSlugChar(s[i]) {
        assert IsSlugOutputChar(s[i]);
      }
    }
    TrimUntrimmed(s);
    assert Trim(s) == s;
    assert LowerCase(s) == s;
    CollapseFixed(s, Whitespace, '-');
    assert KeepSlugChars(s) == s;
    CollapseFixed(s, Hyphen, '-');
    assert LTrim(s, Hyphen) == s;
    assert RTrim(s, Hyphen) == s;
  }

  lemma SlugifyIdempotent(text: string)
    ensures Slugify(Slugify(text)) == Slugify(text)
  {
    SlugifyWellFormed(text);
    SlugFixedPoint(Slugify(text));
  }

  /** A name with no letter, digit, `_`, `-` or whitespace in it has the
      empty slug: the client then proposes an empty id. */
  lemma SlugifyNoWordChars(text: string)
    requires forall i :: 0 <= i < |text| ==> !IsSlugChar(text[i]) && !IsSpace(text[i])
    ensures Slugify(text) == []
  {
    TrimUntrimmed(text);
    assert LowerCase(text) == text;
    CollapseFixed(text, Whitespace, '-');
    KeepNone(text);
  }

  lemma {:induction false} KeepNone(s: string)
    requires forall i :: 0 <= i < |s| ==> !IsSlugChar(s[i])
    ensures KeepSlugChars(s) == []
  {
    if s != [] {
      KeepNone(s[1..]);
    }
  }

  lemma {:induction false} KeepConcat(a: string, b: string)
    ensures KeepSlugChars(a + b) == KeepSlugChars(a) + KeepSlugChars(b)
  {
    if a == [] {
      assert a + b == b;
    } else {
      assert (a + b)[1..] == a[1..] + b;
      KeepConcat(a[1..], b);
    }
  }

  lemma LowerConcat(a: string, b: string)
    ensures LowerCase(a + b) == LowerCase(a) + LowerCase(b)
  {
  }

  lemma {:induction false} KeepConcat5(a: string, b: string, c: string, d: string, e: string)
    ensures KeepSlugChars(a + (b + (c + (d + e))))
      == KeepSlugChars(a) + (KeepSlugChars(b) + (KeepSlugChars(c) + (KeepSlugChars(d) + KeepSlugChars(e))))
  {
    KeepConcat(d, e);
    KeepConcat(c, d + e);
    KeepConcat(b, c + (d + e));
    KeepConcat(a, b + (c + (d + e)));
  }

  lemma LowerConcat5(a: string, b: string, c: string, d: string, e: string)
    ensures LowerCase(a + (b + (c + (d + e))))
      == LowerCase(a) + (LowerCase(b) + (LowerCase(c) + (LowerCase(d) + LowerCase(e))))
  {
    LowerConcat(d, e);
    LowerConcat(c, d + e);
    LowerConcat(b, c + (d + e));
    LowerConcat(a, b + (c + (d + e)));
  }

  /** A piece without `--` and without `-` at its ends is left alone by the
      last two steps. */
  lemma HyphensSettled(s: string)
    requires s != [] && s[0] != '-' && s[|s| - 1] != '-' && NoDoubleHyphen(s)
    ensures RTrim(LTrim(Collapse(s, Hyphen, '-'), Hyphen), Hyphen) == s
  {
    CollapseFixed(s, Hyphen, '-');
  }

  /** The example's steps take the words of "My New Project!" as parameters
      fixed by `requires`, so that the verifier reasons about concatenations
      instead of unrolling the recursive functions over long literals. */
  lemma ExampleSpaced(my: string, new_: string, project: string, sp: string, h: string, bang: string)
    requires my == "my" && new_ == "new" && project == "project"
    requires sp == " " && h == "-" && bang == "!"
    ensures Collapse(my + (sp + (new_ + (sp + (project + bang)))), Whitespace, '-')
      == my + (h + (new_ + (h + (project + bang))))
  {
    WhitespaceRunToHyphen(my, sp, new_ + (sp + (project + bang)));
    WhitespaceRunToHyphen(new_, sp, project + bang);
    CollapseFixed(my, Whitespace, '-');
    CollapseFixed(new_, Whitespace, '-');
    CollapseFixed(project + bang, Whitespace, '-');
  }

  /** The word pieces are parameters for the same reason as above. */
  lemma KeptWord(w: string, bang: string)
    requires w == "project" && bang == "!"
    ensures KeepSlugChars(w + bang) == w
  {
    KeepConcat(w, bang);
    assert KeepSlugChars(bang) == [];
  }

  lemma ExampleKept(my: string, new_: string, project: string, h: string, bang: string)
    requires my == "my" && new_ == "new" && project == "project"
    requires h == "-" && bang == "!"
    ensures KeepSlugChars(my + (h + (new_ + (h + (project + bang))))) == my + (h + (new_ + (h + project)))
  {
    KeepConcat5(my, h, new_, h, project + bang);
    KeptWord(project, bang);
    assert KeepSlugChars(my) == my && KeepSlugChars(h) == h && KeepSlugChars(new_) == new_;
  }

  /** The literal spellings of the pieces the example steps work on. */
  lemma ExamplePieces()
    ensures "My New Project!" == "My" + (" " + ("New" + (" " + ("Project" + "!"))))
    ensures "my new project!" == "my" + (" " + ("new" + (" " + ("project" + "!"))))
    ensures "my-new-project!" == "my" + ("-" + ("new" + ("-" + ("project" + "!"))))
    ensures "my-new-project" == "my" + ("-" + ("new" + ("-" + "project")))
  {
  }

  /** The worked example: "My New Project!" becomes "my-new-project". */
  lemma SlugExample()
    ensures Slugify("My New Project!") == "my-new-project"
  {
    ExampleLowered();
    ExampleHyphenated();
    ExampleStripped();
    ExampleSettled();
  }

  lemma ExampleLowered()
    ensures LowerCase(Trim("My New Project!")) == "my new project!"
  {
    ExampleTrimmed();
    ExamplePieces();
    LowerConcat5("My", " ", "New", " ", "Project" + "!");
    LowerConcat("Project", "!");
    ExampleWordsLowered();
  }

  lemma ExampleTrimmed()
    ensures Trim("My New Project!") == "My New Project!"
  {
    TrimUntrimmed("My New Project!");
  }

  lemma ExampleWordsLowered()
    ensures LowerCase("My") == "my" && LowerCase(" ") == " " && LowerCase("New") == "new"
    ensures LowerCase("Project") == "project" && LowerCase("!") == "!"
  {
  }

  lemma ExampleHyphenated()
    ensures Collapse("my new project!", Whitespace, '-') == "my-new-project!"
  {
    ExampleSpaced("my", "new", "project", " ", "-", "!");
    ExamplePieces();
  }

  lemma ExampleStripped()
    ensures KeepSlugChars("my-new-project!") == "my-new-project"
  {
    ExampleKept("my", "new", "project", "-", "!");
    ExamplePieces();
  }

  lemma ExampleSettled()
    ensures RTrim(LTrim(Collapse("my-new-project", Hyphen, '-'), Hyphen), Hyphen) == "my-new-project"
  {
    HyphensSettled("my-new-project");
  }
}
