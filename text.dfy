/** The text stage of `svParserSPICE::load` (and of the older `svParser::load`):
    trimming, the space tokenizer, the comment and blank-line filter and the
    pairing of `.SUBCKT` with `.ENDS`.  Reading the file and splitting it at
    newlines happen before this stage; a netlist is given here as its lines. */
module NetlistText {
  import opened Common
  import opened SpiceValue

  // ---------------------------------------------------------------------------
  // wxString::Trim
  // ---------------------------------------------------------------------------

  predicate IsSpace(c: char)
  {
    c in SpaceChars
  }

  /** `Trim(false)`: drops the leading white space. */
  function TrimLeft(s: string): (r: string)
    ensures |r| <= |s| && r == s[|s| - |r|..]
    ensures r == [] || !IsSpace(r[0])
    ensures forall i :: 0 <= i < |s| - |r| ==> IsSpace(s[i])
  {
    s[RunLength(s, SpaceChars)..]
  }

  /** `Trim(true)`: drops the trailing white space. */
  function TrimRight(s: string): (r: string)
    ensures r <= s
    ensures r == [] || !IsSpace(r[|r| - 1])
    ensures forall i :: |r| <= i < |s| ==> IsSpace(s[i])
    decreases |s|
  {
    if s != [] && IsSpace(s[|s| - 1]) then TrimRight(s[..|s| - 1]) else s
  }

  /** `Trim(false).Trim(true)`: white space off both ends.  Nothing is left
      exactly when the line is all white space, and what is left neither
      starts nor ends with white space. */
  function Trim(s: string): (r: string)
    ensures |r| <= |s|
    ensures r == [] <==> forall i :: 0 <= i < |s| ==> IsSpace(s[i])
    ensures r == [] || (!IsSpace(r[0]) && !IsSpace(r[|r| - 1]))
  {
    var l := TrimLeft(s);
    var r := TrimRight(l);
    assert r != [] ==> r[0] == l[0];
    r
  }

  predicate AllSpace(s: string)
  {
    forall i :: 0 <= i < |s| ==> IsSpace(s[i])
  }

  /** What trimming leaves: `s` is white space, the trimmed text, and white
      space again, and the trimmed text neither starts nor ends with white
      space. */
  lemma TrimShape(s: string) returns (a: string, b: string)
    ensures s == a + Trim(s) + b && AllSpace(a) && AllSpace(b)
    ensures Trim(s) == [] || (!IsSpace(Trim(s)[0]) && !IsSpace(Trim(s)[|Trim(s)| - 1]))
  {
    var l := TrimLeft(s);
    var t := TrimRight(l);
    a := LeftSpace(s);
    b := RightSpace(l);
    Regroup(a, t, b);
    assert t != [] ==> t[0] == l[0];
  }

  /** The white space `TrimLeft` drops. */
  lemma LeftSpace(s: string) returns (a: string)
    ensures s == a + TrimLeft(s) && AllSpace(a)
  {
    var l := TrimLeft(s);
    a := s[..|s| - |l|];
    SpaceBetween(s, 0, |s| - |l|);
  }

  /** The white space `TrimRight` drops. */
  lemma RightSpace(s: string) returns (b: string)
    ensures s == TrimRight(s) + b && AllSpace(b)
  {
    var t := TrimRight(s);
    b := s[|t|..];
    SpaceBetween(s, |t|, |s|);
  }

  lemma Regroup(a: string, t: string, b: string)
    ensures a + (t + b) == a + t + b
  {
  }

  /** A slice of white space characters is white space. */
  lemma SpaceBetween(s: string, lo: nat, hi: nat)
    requires lo <= hi <= |s|
    requires forall i :: lo <= i < hi ==> IsSpace(s[i])
    ensures AllSpace(s[lo..hi])
  {
    assert forall i :: 0 <= i < hi - lo ==> s[lo..hi][i] == s[lo + i];
  }

  /** Trimming is determined by the inner text: white space around a text
      that starts and ends with something else is all that goes. */
  lemma TrimOfPadded(a: string, m: string, b: string)
    requires AllSpace(a) && AllSpace(b)
    requires m == [] || (!IsSpace(m[0]) && !IsSpace(m[|m| - 1]))
    ensures Trim(a + m + b) == m
  {
    var s := a + m + b;
    if m == [] {
      assert s == a + b;
      assert forall i :: 0 <= i < |s| ==> IsSpace(s[i]);
      RunLengthOfPrefix(s, [], SpaceChars);
    } else {
      assert s == a + (m + b);
      RunLengthOfPrefix(a, m + b, SpaceChars);
      assert TrimLeft(s) == m + b;
      TrimRightOfPadded(m, b);
    }
  }

  lemma {:induction false} TrimRightOfPadded(m: string, b: string)
    requires m != [] && !IsSpace(m[|m| - 1])
    requires AllSpace(b)
    ensures TrimRight(m + b) == m
    decreases |b|
  {
    if b == [] {
      assert m + b == m;
    } else {
      var s := m + b;
      assert s[..|s| - 1] == m + b[..|b| - 1];
      TrimRightOfPadded(m, b[..|b| - 1]);
    }
  }

  /** Trimming twice trims nothing more. */
  lemma TrimIdempotent(s: string)
    ensures Trim(Trim(s)) == Trim(s)
  {
    var _, _ := TrimShape(s);
    var t := Trim(s);
    assert t == [] + t + [];
    TrimOfPadded([], t, []);
  }

  // ---------------------------------------------------------------------------
  // wxStringTokenize(line, " ", wxTOKEN_DEFAULT)
  // ---------------------------------------------------------------------------

  /** The length of the leading run of characters other than the space. */
  function WordLength(s: string): (n: nat)
    ensures n <= |s|
    ensures forall i :: 0 <= i < n ==> s[i] != ' '
    ensures n < |s| ==> s[n] == ' '
  {
    if s == [] || s[0] == ' ' then 0 else 1 + WordLength(s[1..])
  }

  predicate IsWord(t: string)
  {
    t != [] && ' ' !in t
  }

  /** The tokens of a line split at the space character.  With a delimiter
      made of white space only, the default mode behaves like `strtok`:
      runs of spaces separate, and no token is empty. */
  function Tokens(s: string): (ts: seq<string>)
    ensures forall i :: 0 <= i < |ts| ==> IsWord(ts[i])
    decreases |s|
  {
    if s == [] then []
    else if s[0] == ' ' then Tokens(s[1..])
    else
      var n := WordLength(s);
      assert forall i :: 0 <= i < n ==> s[..n][i] == s[i];
      [s[..n]] + Tokens(s[n..])
  }

  /** The words joined by single spaces. */
  function Join(ts: seq<string>): string
  {
    if ts == [] then []
    else if |ts| == 1 then ts[0]
    else ts[0] + " " + Join(ts[1..])
  }

  /** A word followed by a space splits off as the first token. */
  lemma WordThenSpace(w: string, rest: string)
    requires IsWord(w)
    ensures Tokens(w + " " + rest) == [w] + Tokens(rest)
  {
    var s := w + " " + rest;
    WordLengthOf(w, " " + rest);
    assert s == w + (" " + rest);
    assert s[..|w|] == w;
    assert s[|w|..] == " " + rest;
    assert (" " + rest)[1..] == rest;
  }

  lemma WordLengthOf(w: string, rest: string)
    requires ' ' !in w
    requires rest == [] || rest[0] == ' '
    ensures WordLength(w + rest) == |w|
  {
    var s := w + rest;
    assert forall i :: 0 <= i < |w| ==> s[i] == w[i];
    assert rest != [] ==> s[|w|] == rest[0];
  }

  /** Tokenizing undoes joining: words put together with single spaces
      come back one by one. */
  lemma {:induction false} TokensOfJoin(ts: seq<string>)
    requires forall i :: 0 <= i < |ts| ==> IsWord(ts[i])
    ensures Tokens(Join(ts)) == ts
    decreases |ts|
  {
    if |ts| == 1 {
      var w := ts[0];
      WordLengthOf(w, []);
      assert w + [] == w;
      assert w[..|w|] == w && w[|w|..] == [];
    } else if |ts| > 1 {
      WordThenSpace(ts[0], Join(ts[1..]));
      TokensOfJoin(ts[1..]);
      assert ts == [ts[0]] + ts[1..];
    }
  }

  /** Spaces in front of a line do not change its tokens. */
  lemma {:induction false} LeadingSpacesIgnored(k: nat, s: string)
    ensures Tokens(Spaces(k) + s) == Tokens(s)
    decreases k
  {
    if k > 0 {
      var p := Spaces(k);
      assert (p + s)[0] == ' ';
      assert (p + s)[1..] == Spaces(k - 1) + s;
      assert Tokens(p + s) == Tokens((p + s)[1..]);
      LeadingSpacesIgnored(k - 1, s);
    } else {
      assert Spaces(k) + s == s;
    }
  }

  function Spaces(k: nat): string
  {
    if k == 0 then [] else [' '] + Spaces(k - 1)
  }

  /** The first token, when there is one. */
  function FirstToken(line: string): string
  {
    var ts := Tokens(line);
    if ts == [] then [] else ts[0]
  }

  // ---------------------------------------------------------------------------
  // Comment and blank-line filter
  // ---------------------------------------------------------------------------

  /** A trimmed line reaches the parser unless it is empty or starts with
      `*`: a line is kept exactly when it holds a character other than white
      space and the first such character is not `*`. */
  predicate Kept(line: string)
    ensures var k := RunLength(line, SpaceChars);
      Kept(line) <==> k < |line| && line[k] != '*'
  {
    var t := Trim(line);
    t != [] && t[0] != '*'
  }

  /** The lines the text stage keeps, trimmed, in order. */
  function Preprocess(lines: seq<string>): (r: seq<string>)
    ensures |r| <= |lines|
    ensures forall i :: 0 <= i < |r| ==> r[i] != [] && r[i][0] != '*'
    decreases |lines|
  {
    if lines == [] then []
    else
      var last := lines[|lines| - 1];
      Preprocess(lines[..|lines| - 1]) + (if Kept(last) then [Trim(last)] else [])
  }

  /** The kept lines are exactly the trimmed forms of the lines that are
      neither blank nor comments. */
  lemma {:induction false} PreprocessExactly(lines: seq<string>)
    ensures forall x :: x in Preprocess(lines) <==> exists l :: l in lines && Kept(l) && Trim(l) == x
    decreases |lines|
  {
    if lines != [] {
      var init := lines[..|lines| - 1];
      var last := lines[|lines| - 1];
      PreprocessExactly(init);
      assert lines == init + [last];
      var tail := if Kept(last) then [Trim(last)] else [];
      assert Preprocess(lines) == Preprocess(init) + tail;
      forall x
        ensures x in Preprocess(lines) <==> exists l :: l in lines && Kept(l) && Trim(l) == x
      {
        if x in Preprocess(init) {
          var l :| l in init && Kept(l) && Trim(l) == x;
          assert l in lines;
        } else if x in tail {
          assert last in lines && Kept(last) && Trim(last) == x;
        }
        if exists l :: l in lines && Kept(l) && Trim(l) == x {
          var l :| l in lines && Kept(l) && Trim(l) == x;
          if l != last {
            assert l in init;
          }
        }
      }
    }
  }

  /** The kept lines come in input order: the filter works line by line and
      distributes over concatenation.  With `PreprocessOneLine` this fixes
      `Preprocess(lines)` as the in-order filter-and-trim of `lines`. */
  lemma {:induction false} PreprocessInOrder(a: seq<string>, b: seq<string>)
    ensures Preprocess(a + b) == Preprocess(a) + Preprocess(b)
    decreases |b|
  {
    if b == [] {
      assert a + b == a;
    } else {
      var init := b[..|b| - 1];
      var last := b[|b| - 1];
      var tail := if Kept(last) then [Trim(last)] else [];
      PreprocessInOrder(a, init);
      assert (a + b)[..|a + b| - 1] == a + init;
      assert (a + b)[|a + b| - 1] == last;
      calc {
        Preprocess(a + b);
        Preprocess(a + init) + tail;
        Preprocess(a) + Preprocess(init) + tail;
        Preprocess(a) + (Preprocess(init) + tail);
        Preprocess(a) + Preprocess(b);
      }
    }
  }

  /** A single line is kept, trimmed, exactly when it is neither blank nor a
      comment. */
  lemma PreprocessOneLine(l: string)
    ensures Preprocess([l]) == if Kept(l) then [Trim(l)] else []
  {
    assert [l][..0] == [];
  }

  /** Trimming a kept line again changes nothing. */
  lemma {:induction false} PreprocessTrimmed(lines: seq<string>)
    ensures forall i :: 0 <= i < |Preprocess(lines)| ==> Trim(Preprocess(lines)[i]) == Preprocess(lines)[i]
    decreases |lines|
  {
    if lines != [] {
      var init := lines[..|lines| - 1];
      var last := lines[|lines| - 1];
      PreprocessTrimmed(init);
      TrimIdempotent(last);
    }
  }

  // ---------------------------------------------------------------------------
  // .SUBCKT and .ENDS
  // ---------------------------------------------------------------------------

  const SubcktPrefix: string := ".SUBCKT "

  /** `StartsWith(".SUBCKT ")`, case-sensitive.  A header line starts with
      neither white space nor `*`. */
  predicate IsSubcktLine(line: string)
    ensures IsSubcktLine(line) ==> |line| > 0 && !IsSpace(line[0]) && line[0] != '*'
  {
    SubcktPrefix <= line
  }

  /** A header line always passes the comment and blank-line filter. */
  lemma HeaderKept(line: string)
    requires IsSubcktLine(line)
    ensures Kept(line) && Trim(line)[0] == '.'
  {
    assert RunLength(line, SpaceChars) == 0;
  }

  /** `strtemp.BeforeFirst(' ')`: the text after the prefix up to its first
      space (all of it when there is none). */
  function SubcktName(line: string): (name: string)
    requires IsSubcktLine(line)
    ensures ' ' !in name && name <= line[|SubcktPrefix|..]
  {
    var rest := line[|SubcktPrefix|..];
    var n := WordLength(rest);
    assert forall i :: 0 <= i < n ==> rest[..n][i] == rest[i];
    rest[..n]
  }

  /** The name of `.SUBCKT <name> <pins...>` is the first word after the
      prefix. */
  lemma SubcktNameOf(name: string, rest: string)
    requires IsWord(name)
    ensures IsSubcktLine(SubcktPrefix + name + " " + rest)
    ensures SubcktName(SubcktPrefix + name + " " + rest) == name
  {
    var line := SubcktPrefix + name + " " + rest;
    assert line == SubcktPrefix + (name + " " + rest);
    assert line[|SubcktPrefix|..] == name + (" " + rest);
    WordLengthOf(name, " " + rest);
    assert (name + (" " + rest))[..|name|] == name;
  }

  /** A header's first token is `.SUBCKT`. */
  lemma SubcktFirstToken(line: string)
    ensures IsSubcktLine(line) ==> FirstToken(line) == ".SUBCKT"
  {
    if IsSubcktLine(line) {
      var rest := line[|SubcktPrefix|..];
      assert line == ".SUBCKT" + " " + rest;
      WordThenSpace(".SUBCKT", rest);
    }
  }

  /** The first token is `.ENDS`, case-sensitive; a header line is never
      taken for the end of a block. */
  predicate IsEndsLine(line: string)
    ensures IsEndsLine(line) ==> !IsSubcktLine(line)
  {
    SubcktFirstToken(line);
    FirstToken(line) == ".ENDS"
  }

  /** The first line from `from` on whose first token is `.ENDS`. */
  function FindEnds(lines: seq<string>, from: nat): (r: Option<nat>)
    ensures r.Some? ==> from <= r.value < |lines| && IsEndsLine(lines[r.value])
    ensures r.Some? ==> forall k :: from <= k < r.value ==> !IsEndsLine(lines[k])
    ensures r.None? ==> forall k :: from <= k < |lines| ==> !IsEndsLine(lines[k])
    decreases |lines| - from
  {
    if from >= |lines| then None
    else if IsEndsLine(lines[from]) then Some(from)
    else FindEnds(lines, from + 1)
  }
}
