/** The download name of both documents: the report title with every run of
    whitespace replaced by one underscore (`title.replace(/\s+/g, "_")`),
    followed by the format's extension. */
module FileNames {

  /** The characters JavaScript's `\s` class matches. */
  predicate IsWhitespace(c: char) {
    c == ' ' || c == '\t' || c == '\n' || c == '\r' || c == '\U{000B}' || c == '\U{000C}'
    || c == '\U{00A0}' || c == '\U{1680}' || ('\U{2000}' <= c <= '\U{200A}')
    || c == '\U{2028}' || c == '\U{2029}' || c == '\U{202F}' || c == '\U{205F}'
    || c == '\U{3000}' || c == '\U{FEFF}'
  }

  predicate NoWhitespace(s: string) {
    forall i | 0 <= i < |s| :: !IsWhitespace(s[i])
  }

  /** What is left of s once the greedy `\s+` has consumed its leading whitespace. */
  function SkipWhitespace(s: string): (t: string)
    ensures |t| <= |s| && t == s[|s| - |t|..]
    ensures t == [] || !IsWhitespace(t[0])
    ensures forall i | 0 <= i < |s| - |t| :: IsWhitespace(s[i])
    decreases |s|
  {
    if s != [] && IsWhitespace(s[0]) then SkipWhitespace(s[1..]) else s
  }

  /** The global regular-expression replacement: scanning left to right, a maximal
      whitespace run is replaced by "_", any other character is copied. */
  function Underscored(s: string): string
    decreases |s|
  {
    if s == [] then []
    else if IsWhitespace(s[0]) then "_" + Underscored(SkipWhitespace(s[1..]))
    else [s[0]] + Underscored(s[1..])
  }

  /** Reference reading, one character at a time: a whitespace character becomes
      "_" when it starts a run and disappears when it continues one; every other
      character is kept in place. */
  function Squeezed(s: string, inRun: bool): string
    decreases |s|
  {
    if s == [] then []
    else if IsWhitespace(s[0]) then (if inRun then "" else "_") + Squeezed(s[1..], true)
    else [s[0]] + Squeezed(s[1..], false)
  }

  function FileName(title: string, extension: string): string {
    Underscored(title) + "." + extension
  }

  /** Skipping a run and then rewriting is the same as reading on inside the run. */
  lemma {:induction false} SkipThenRewrite(s: string)
    ensures Underscored(SkipWhitespace(s)) == Squeezed(s, true)
    decreases |s|, 0
  {
    if s != [] {
      if IsWhitespace(s[0]) {
        SkipThenRewrite(s[1..]);
      } else {
        RewriteIsSqueeze(s[1..]);
      }
    }
  }

  /** The replacement agrees with the character-at-a-time reading: each maximal
      whitespace run becomes exactly one "_" and every other character keeps its order. */
  lemma {:induction false} RewriteIsSqueeze(s: string)
    ensures Underscored(s) == Squeezed(s, false)
    decreases |s|, 1
  {
    if s != [] {
      if IsWhitespace(s[0]) {
        SkipThenRewrite(s[1..]);
      } else {
        RewriteIsSqueeze(s[1..]);
      }
    }
  }

  /** No whitespace survives the rewrite, and it never lengthens the title. */
  lemma {:induction false} RewriteLeavesNoWhitespace(s: string)
    ensures NoWhitespace(Underscored(s))
    ensures |Underscored(s)| <= |s|
    decreases |s|
  {
    if s != [] {
      if IsWhitespace(s[0]) {
        RewriteLeavesNoWhitespace(SkipWhitespace(s[1..]));
      } else {
        RewriteLeavesNoWhitespace(s[1..]);
      }
    }
  }

  /** A title without whitespace is its own file stem. */
  lemma {:induction false} RewriteKeepsPlainTitle(s: string)
    requires NoWhitespace(s)
    ensures Underscored(s) == s
    decreases |s|
  {
    if s != [] {
      assert !IsWhitespace(s[0]);
      RewriteKeepsPlainTitle(s[1..]);
      assert [s[0]] + s[1..] == s;
    }
  }

  /** Rewriting a second time changes nothing. */
  lemma RewriteIdempotent(s: string)
    ensures Underscored(Underscored(s)) == Underscored(s)
  {
    RewriteLeavesNoWhitespace(s);
    RewriteKeepsPlainTitle(Underscored(s));
  }

  /** The name is a whitespace-free stem, a dot and the extension. */
  lemma FileNameShape(title: string, extension: string)
    ensures var name := FileName(title, extension);
      |name| == |Underscored(title)| + 1 + |extension|
      && name[..|Underscored(title)|] == Underscored(title)
      && NoWhitespace(name[..|Underscored(title)|])
      && name[|Underscored(title)|..] == "." + extension
  {
    RewriteLeavesNoWhitespace(title);
    var name := FileName(title, extension);
    assert name[..|Underscored(title)|] == Underscored(title);
  }

  /** A whitespace-free prefix is copied unchanged. */
  lemma {:induction false} RewriteCopiesPlainPrefix(a: string, rest: string)
    requires NoWhitespace(a)
    ensures Underscored(a + rest) == a + Underscored(rest)
    decreases |a|
  {
    if a != [] {
      var s := a + rest;
      assert s[0] == a[0] && !IsWhitespace(s[0]);
      assert s[1..] == a[1..] + rest;
      calc {
        Underscored(s);
        [a[0]] + Underscored(a[1..] + rest);
        { RewriteCopiesPlainPrefix(a[1..], rest); }
        [a[0]] + (a[1..] + Underscored(rest));
        { assert [a[0]] + a[1..] == a; }
        a + Underscored(rest);
      }
    } else {
      assert a + rest == rest;
    }
  }

  /** A single space between two words becomes a single underscore. */
  lemma SpaceBetweenWords(a: string, b: string)
    requires NoWhitespace(a) && b != [] && !IsWhitespace(b[0])
    ensures Underscored(a + " " + b) == a + "_" + Underscored(b)
  {
    var tail := " " + b;
    assert tail[1..] == b && SkipWhitespace(b) == b;
    assert Underscored(tail) == "_" + Underscored(b);
    RewriteCopiesPlainPrefix(a, tail);
    assert a + " " + b == a + tail;
  }

  /** Three whitespace-free words separated by single spaces, as in "Intro to OS",
      give the stem with underscores between them ("Intro_to_OS"). */
  lemma ThreeWordTitle(a: string, b: string, c: string, extension: string)
    requires NoWhitespace(a) && NoWhitespace(b) && NoWhitespace(c)
    requires b != [] && c != []
    ensures FileName(a + " " + b + " " + c, extension) == a + "_" + b + "_" + c + "." + extension
  {
    RewriteKeepsPlainTitle(c);
    SpaceBetweenWords(b, c);
    assert (b + " " + c)[0] == b[0];
    SpaceBetweenWords(a, b + " " + c);
    assert a + " " + b + " " + c == a + " " + (b + " " + c);
    assert a + "_" + (b + "_" + c) == a + "_" + b + "_" + c;
  }
}
