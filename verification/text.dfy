/** The JavaScript string operations the modelled components rely on, over
    strings as sequences of characters: `trim`, the `\s` class, `includes`,
    `split` on a one-character separator, `join`, and ASCII case mapping. */
module Text {

  /** The characters `String.prototype.trim` removes and the regular-expression
      class `\s` matches: the ECMAScript WhiteSpace and LineTerminator code points. */
  predicate IsSpace(c: char) {
    var n := c as int;
    n == 0x09 || n == 0x0A || n == 0x0B || n == 0x0C || n == 0x0D || n == 0x20 ||
    n == 0xA0 || n == 0x1680 || (0x2000 <= n <= 0x200A) || n == 0x2028 || n == 0x2029 ||
    n == 0x202F || n == 0x205F || n == 0x3000 || n == 0xFEFF
  }

  predicate AllSpace(s: string) {
    forall i :: 0 <= i < |s| ==> IsSpace(s[i])
  }

  /** `s.trimStart()`: a suffix of `s` whose dropped prefix is all white space. */
  function TrimStart(s: string): (r: string)
    ensures |r| <= |s| && r == s[|s| - |r|..]
    ensures r == [] || !IsSpace(r[0])
    ensures AllSpace(s[..|s| - |r|])
  {
    if |s| > 0 && IsSpace(s[0]) then
      var r := TrimStart(s[1..]);
      DropSpaceStep(s, r);
      r
    else s
  }

  /** Dropping one leading space keeps a suffix whose dropped prefix is blank. */
  lemma DropSpaceStep(s: string, r: string)
    requires |s| > 0 && IsSpace(s[0])
    requires |r| <= |s| - 1 && r == s[1..][|s| - 1 - |r|..] && AllSpace(s[1..][..|s| - 1 - |r|])
    ensures r == s[|s| - |r|..] && AllSpace(s[..|s| - |r|])
  {
    assert s[1..][|s| - 1 - |r|..] == s[|s| - |r|..];
    assert s[..|s| - |r|] == [s[0]] + s[1..][..|s| - 1 - |r|];
  }

  /** `s.trimEnd()`: a prefix of `s` whose dropped suffix is all white space. */
  function TrimEnd(s: string): (r: string)
    ensures |r| <= |s| && r == s[..|r|]
    ensures r == [] || !IsSpace(r[|r| - 1])
    ensures AllSpace(s[|r|..])
  {
    if |s| > 0 && IsSpace(s[|s| - 1]) then
      var r := TrimEnd(s[..|s| - 1]);
      DropSpaceStepEnd(s, r);
      r
    else s
  }

  /** `r` is the part of `s` from `i` to `j`, and only white space lies
      before and after it. */
  predicate Surrounds(s: string, i: int, j: int, r: string) {
    0 <= i <= j <= |s| && r == s[i..j] && AllSpace(s[..i]) && AllSpace(s[j..])
  }

  /** `r` is `s` with white space, and nothing else, removed at both ends. */
  predicate IsTrimOf(s: string, r: string) {
    exists i, j | 0 <= i <= j <= |s| :: Surrounds(s, i, j, r)
  }

  /** Dropping one trailing space keeps a prefix whose dropped suffix is blank. */
  lemma DropSpaceStepEnd(s: string, r: string)
    requires |s| > 0 && IsSpace(s[|s| - 1])
    requires |r| <= |s| - 1 && r == s[..|s| - 1][..|r|] && AllSpace(s[..|s| - 1][|r|..])
    ensures r == s[..|r|] && AllSpace(s[|r|..])
  {
    assert s[..|s| - 1][..|r|] == s[..|r|];
    assert s[|r|..] == s[..|s| - 1][|r|..] + [s[|s| - 1]];
  }

  /** `s.trim()`. It is empty exactly when `s` is blank, and otherwise
      starts and ends with a character that is not white space; that it
      removes white space at the ends and nothing else is `TrimRemovesOnlyEnds`. */
  function Trim(s: string): (r: string)
    ensures |r| <= |s|
    ensures r == [] <==> AllSpace(s)
    ensures r == [] || (!IsSpace(r[0]) && !IsSpace(r[|r| - 1]))
  {
    var t := TrimStart(s);
    var r := TrimEnd(t);
    TrimParts(s, t, r);
    r
  }

  /** What `TrimStart` and `TrimEnd` promise, composed: the result is a
      slice between white-space ends, empty exactly when `s` is blank. */
  lemma TrimParts(s: string, t: string, r: string)
    requires |t| <= |s| && t == s[|s| - |t|..] && AllSpace(s[..|s| - |t|])
    requires t == [] || !IsSpace(t[0])
    requires |r| <= |t| && r == t[..|r|] && AllSpace(t[|r|..])
    ensures IsTrimOf(s, r)
    ensures r == [] <==> AllSpace(s)
  {
    var i := |s| - |t|;
    var j := i + |r|;
    assert s[j..] == t[|r|..];
    assert Surrounds(s, i, j, r);
    if r == [] {
      assert t[0..] == t;
      assert t == [];
      assert s[..|s|] == s;
    } else {
      assert s[i] == t[0] == r[0];
    }
  }

  /** `trim` removes white space at both ends and nothing else, and its
      result is the only such slice of `s` that is empty or has non-space
      characters at both ends. */
  lemma TrimRemovesOnlyEnds(s: string)
    ensures IsTrimOf(s, Trim(s))
    ensures forall r :: IsTrimOf(s, r) && (r == [] || (!IsSpace(r[0]) && !IsSpace(r[|r| - 1]))) ==> r == Trim(s)
  {
    var t := TrimStart(s);
    TrimParts(s, t, TrimEnd(t));
    forall r | IsTrimOf(s, r) && (r == [] || (!IsSpace(r[0]) && !IsSpace(r[|r| - 1])))
      ensures r == Trim(s)
    {
      TrimUnique(s, r, Trim(s));
    }
  }

  /** What a slice between white-space ends says about `s`: an empty one
      makes `s` blank; one with non-space ends starts at the first non-space
      character of `s` and ends after the last. */
  lemma SurroundsEnds(s: string, i: int, j: int, r: string)
    requires Surrounds(s, i, j, r) && (r == [] || (!IsSpace(r[0]) && !IsSpace(r[|r| - 1])))
    ensures r == [] ==> AllSpace(s)
    ensures r != [] ==> 0 <= i < j <= |s| && !IsSpace(s[i]) && !IsSpace(s[j - 1])
    ensures r != [] ==> (forall k :: 0 <= k < i ==> IsSpace(s[k])) && (forall k :: j <= k < |s| ==> IsSpace(s[k]))
  {
    forall k | 0 <= k < i ensures IsSpace(s[k]) {
      assert s[k] == s[..i][k];
    }
    forall k | j <= k < |s| ensures IsSpace(s[k]) {
      assert s[k] == s[j..][k - j];
    }
    if r != [] {
      assert s[i] == r[0] && s[j - 1] == r[|r| - 1];
    }
  }

  /** Two slices of `s` between white-space ends, each empty or with non-space
      ends, are equal. */
  lemma TrimUnique(s: string, r: string, u: string)
    requires IsTrimOf(s, r) && (r == [] || (!IsSpace(r[0]) && !IsSpace(r[|r| - 1])))
    requires IsTrimOf(s, u) && (u == [] || (!IsSpace(u[0]) && !IsSpace(u[|u| - 1])))
    ensures r == u
  {
    var i, j :| 0 <= i <= j <= |s| && Surrounds(s, i, j, r);
    var i', j' :| 0 <= i' <= j' <= |s| && Surrounds(s, i', j', u);
    SurroundsEnds(s, i, j, r);
    SurroundsEnds(s, i', j', u);
  }

  /** A string that already starts and ends with non-space characters is its own trim. */
  lemma TrimFixpoint(s: string)
    requires s == [] || (!IsSpace(s[0]) && !IsSpace(s[|s| - 1]))
    ensures Trim(s) == s
  {
  }

  /** Trimming twice is trimming once. */
  lemma TrimIdempotent(s: string)
    ensures Trim(Trim(s)) == Trim(s)
  {
    TrimFixpoint(Trim(s));
  }

  /** `s.length`: the number of UTF-16 code units. A character outside the
      Basic Multilingual Plane is a surrogate pair and counts twice. */
  function Utf16Length(s: string): (n: nat)
    ensures |s| <= n <= 2 * |s|
  {
    if s == [] then 0
    else (if s[0] as int < 0x1_0000 then 1 else 2) + Utf16Length(s[1..])
  }

  /** Code units add up over concatenation. */
  lemma {:induction false} Utf16LengthAppend(a: string, b: string)
    ensures Utf16Length(a + b) == Utf16Length(a) + Utf16Length(b)
  {
    if a != [] {
      Utf16LengthAppend(a[1..], b);
      assert (a + b)[1..] == a[1..] + b;
    } else {
      assert a + b == b;
    }
  }

  /** The count agrees with the number of characters exactly when every
      character lies in the Basic Multilingual Plane. */
  lemma {:induction false} Utf16LengthOfBmp(s: string)
    ensures Utf16Length(s) == |s| <==> forall i :: 0 <= i < |s| ==> s[i] as int < 0x1_0000
  {
    if s != [] {
      Utf16LengthOfBmp(s[1..]);
      if s[0] as int >= 0x1_0000 {
        assert !(s[0] as int < 0x1_0000);
      } else {
        assert forall i :: 1 <= i < |s| ==> s[i] == s[1..][i - 1];
      }
    }
  }

  /** `s.endsWith(suffix)` */
  predicate EndsWith(s: string, suffix: string) {
    |suffix| <= |s| && s[|s| - |suffix|..] == suffix
  }

  /** A string ends with what was appended last. */
  lemma EndsWithAppended(a: string, b: string)
    ensures EndsWith(a + b, b)
  {
    assert (a + b)[|a|..] == b;
  }

  /** Whatever precedes the last three parts of a string, they end it. */
  lemma EndsWithLastParts(a: string, b: string, c: string, d: string, e: string)
    ensures EndsWith(a + (b + c) + d + e, c + d + e)
  {
    assert a + (b + c) + d + e == (a + b) + (c + d + e);
  }

  /** `part` occurs in `s` starting at index `i`. */
  predicate OccursAt(s: string, part: string, i: int) {
    0 <= i <= |s| - |part| && s[i..i + |part|] == part
  }

  /** `s.includes(part)` */
  predicate Contains(s: string, part: string) {
    exists i | 0 <= i <= |s| - |part| :: OccursAt(s, part, i)
  }

  /** Every character of a contained string occurs in the containing one. */
  lemma ContainedCharsOccur(s: string, part: string, k: nat)
    requires k < |part|
    ensures Contains(s, part) ==> part[k] in s
  {
    if Contains(s, part) {
      var i :| 0 <= i <= |s| - |part| && OccursAt(s, part, i);
      assert s[i..i + |part|] == part;
      assert s[i + k] == part[k];
    }
  }

  function LowerChar(c: char): char {
    if 'A' <= c <= 'Z' then (c as int + 32) as char else c
  }

  function UpperChar(c: char): char {
    if 'a' <= c <= 'z' then (c as int - 32) as char else c
  }

  /** `s.toLowerCase()`, restricted to the ASCII letters. */
  function ToLower(s: string): (r: string)
    ensures |r| == |s|
    ensures forall i :: 0 <= i < |s| ==> r[i] == LowerChar(s[i])
  {
    seq(|s|, i requires 0 <= i < |s| => LowerChar(s[i]))
  }

  /** Lower-casing leaves no upper-case ASCII letter. */
  lemma LowerHasNoUpper(s: string)
    ensures forall i :: 0 <= i < |ToLower(s)| ==> !('A' <= ToLower(s)[i] <= 'Z')
  {
    forall i | 0 <= i < |s| ensures !('A' <= ToLower(s)[i] <= 'Z') {
      assert ToLower(s)[i] == LowerChar(s[i]);
    }
  }

  /** `s.split(sep)` for a one-character separator: the pieces between
      separators in order, empty pieces included; never an empty list. */
  function Split(s: string, sep: char): (parts: seq<string>)
    ensures |parts| >= 1
    ensures forall j :: 0 <= j < |parts| ==> sep !in parts[j]
  {
    if s == [] then [[]]
    else
      var rest := Split(s[1..], sep);
      if s[0] == sep then [[]] + rest
      else [[s[0]] + rest[0]] + rest[1..]
  }

  /** `parts.join(sep)`; it begins with the first piece. */
  function Join(parts: seq<string>, sep: string): (r: string)
    ensures |parts| > 0 ==> parts[0] <= r
  {
    if |parts| == 0 then []
    else if |parts| == 1 then parts[0]
    else parts[0] + sep + Join(parts[1..], sep)
  }

  /** Joining with an empty list in front of a non-empty one inserts one separator. */
  lemma JoinCons(p: string, parts: seq<string>, sep: string)
    requires |parts| >= 1
    ensures Join([p] + parts, sep) == p + sep + Join(parts, sep)
  {
    assert ([p] + parts)[1..] == parts;
  }

  /** Prefixing the first piece prefixes the join. */
  lemma JoinExtendHead(x: string, parts: seq<string>, sep: string)
    requires |parts| >= 1
    ensures Join([x + parts[0]] + parts[1..], sep) == x + Join(parts, sep)
  {
    if |parts| > 1 {
      JoinCons(x + parts[0], parts[1..], sep);
    }
  }

  /** Appending a piece appends one separator and the piece. */
  lemma {:induction false} JoinSnoc(parts: seq<string>, p: string, sep: string)
    ensures Join(parts + [p], sep) == if parts == [] then p else Join(parts, sep) + sep + p
  {
    if |parts| == 1 {
      assert (parts + [p])[1..] == [p];
    } else if |parts| > 1 {
      JoinSnoc(parts[1..], p, sep);
      assert (parts + [p])[1..] == parts[1..] + [p];
    }
  }

  /** Joining one-character pieces with nothing between them lines the
      characters up in order. */
  lemma {:induction false} JoinSingletons(parts: seq<string>)
    requires forall i :: 0 <= i < |parts| ==> |parts[i]| == 1
    ensures |Join(parts, [])| == |parts|
    ensures forall i :: 0 <= i < |parts| ==> Join(parts, [])[i] == parts[i][0]
  {
    if |parts| > 1 {
      JoinSingletons(parts[1..]);
      assert Join(parts, []) == parts[0] + Join(parts[1..], []);
    }
  }

  /** Splitting and joining back with the same separator restores the string. */
  lemma {:induction false} JoinSplit(s: string, sep: char)
    ensures Join(Split(s, sep), [sep]) == s
  {
    if s != [] {
      var rest := Split(s[1..], sep);
      JoinSplit(s[1..], sep);
      if s[0] == sep {
        JoinCons([], rest, [sep]);
      } else {
        JoinExtendHead([s[0]], rest, [sep]);
      }
      assert s == [s[0]] + s[1..];
    }
  }

  /** A string without the separator splits into itself alone. */
  lemma {:induction false} SplitWithoutSeparator(s: string, sep: char)
    requires sep !in s
    ensures Split(s, sep) == [s]
  {
    if s != [] {
      SplitWithoutSeparator(s[1..], sep);
      assert [s[0]] + s[1..] == s;
    }
  }

  /** One step of `Split`: the pieces of a string that starts with `c`. */
  lemma SplitCons(c: char, t: string, sep: char)
    ensures Split([c] + t, sep) ==
      if c == sep then [[]] + Split(t, sep) else [[c] + Split(t, sep)[0]] + Split(t, sep)[1..]
  {
    assert ([c] + t)[0] == c && ([c] + t)[1..] == t;
  }

  /** The step of `Split` commutes with appending further pieces. */
  lemma SplitStepAppend(c: char, sep: char, left: seq<string>, right: seq<string>)
    requires |left| >= 1
    ensures (if c == sep then [[]] + (left + right) else [[c] + (left + right)[0]] + (left + right)[1..])
         == (if c == sep then [[]] + left else [[c] + left[0]] + left[1..]) + right
  {
    if c != sep {
      assert (left + right)[0] == left[0];
      assert (left + right)[1..] == left[1..] + right;
    }
  }

  /** A separator between two strings splits them apart: the pieces are those
      of the left part followed by those of the right part. */
  lemma {:induction false} SplitAround(a: string, b: string, sep: char)
    ensures Split(a + [sep] + b, sep) == Split(a, sep) + Split(b, sep)
  {
    if a == [] {
      assert a + [sep] + b == [sep] + b;
      SplitCons(sep, b, sep);
    } else {
      var c, a' := a[0], a[1..];
      var t := a' + [sep] + b;
      assert a == [c] + a';
      assert a + [sep] + b == [c] + t;
      SplitAround(a', b, sep);
      SplitCons(c, t, sep);
      SplitCons(c, a', sep);
      SplitStepAppend(c, sep, Split(a', sep), Split(b, sep));
    }
  }

  /** Joining pieces that do not contain the separator, then splitting, gives the pieces back. */
  lemma {:induction false} SplitJoin(parts: seq<string>, sep: char)
    requires |parts| >= 1
    requires forall j :: 0 <= j < |parts| ==> sep !in parts[j]
    ensures Split(Join(parts, [sep]), sep) == parts
  {
    if |parts| == 1 {
      SplitWithoutSeparator(parts[0], sep);
    } else {
      SplitJoin(parts[1..], sep);
      SplitWithoutSeparator(parts[0], sep);
      SplitAround(parts[0], Join(parts[1..], [sep]), sep);
      assert parts == [parts[0]] + parts[1..];
    }
  }

  /** `.filter(Boolean)` on a list of strings: drops the empty ones, keeping order. */
  function NonEmpty(parts: seq<string>): (r: seq<string>)
    ensures |r| <= |parts|
    ensures forall j :: 0 <= j < |r| ==> r[j] != []
    ensures forall p :: p in r <==> p in parts && p != []
  {
    if parts == [] then []
    else (if parts[0] == [] then [] else [parts[0]]) + NonEmpty(parts[1..])
  }

  lemma {:induction false} NonEmptyAppend(a: seq<string>, b: seq<string>)
    ensures NonEmpty(a + b) == NonEmpty(a) + NonEmpty(b)
  {
    if a != [] {
      NonEmptyAppend(a[1..], b);
      assert (a + b)[1..] == a[1..] + b;
    } else {
      assert a + b == b;
    }
  }

  /** `s.split(" ").filter(Boolean)`: the words of `s`. */
  function Words(s: string): seq<string> {
    NonEmpty(Split(s, ' '))
  }

  /** A space separates words, however many spaces surround it: runs of
      spaces never produce a word of their own. */
  lemma WordsAround(a: string, b: string)
    ensures Words(a + " " + b) == Words(a) + Words(b)
  {
    SplitAround(a, b, ' ');
    NonEmptyAppend(Split(a, ' '), Split(b, ' '));
  }

  /** A non-empty string without spaces is one word. */
  lemma SingleWord(s: string)
    requires s != [] && ' ' !in s
    ensures Words(s) == [s]
  {
    SplitWithoutSeparator(s, ' ');
  }

  /** A blank-of-spaces string (or the empty string) has no words. */
  lemma {:induction false} NoWordsInSpaces(s: string)
    requires forall i :: 0 <= i < |s| ==> s[i] == ' '
    ensures Words(s) == []
  {
    if s != [] {
      NoWordsInSpaces(s[1..]);
      assert s == [] + [' '] + s[1..];
      WordsAround([], s[1..]);
    }
  }
}
