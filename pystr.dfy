/**
 * The Python `str` operations the plugins use: whitespace, `split()` with
 * no separator, `" ".join`, `strip()`, `title()` and single-character
 * `replace(c, "")`. Case mapping covers ASCII letters only.
 */
module PyStr {

  /** The characters `str.split()` and `str.strip()` treat as whitespace (Latin-1 range). */
  predicate IsSpace(c: char) {
    c in Whitespace
  }

  const Whitespace: set<char> := {' ', '\t', '\n', '\r', '\U{000B}', '\U{000C}',
    '\U{001C}', '\U{001D}', '\U{001E}', '\U{001F}', '\U{0085}', '\U{00A0}'}

  predicate NoSpace(s: string) {
    forall i :: 0 <= i < |s| ==> !IsSpace(s[i])
  }

  // ---------------------------------------------------------------------
  // split() and join

  /** The length of the run of non-whitespace characters `s` starts with. */
  function WordLen(s: string): (n: nat)
    ensures n <= |s| && NoSpace(s[..n])
    ensures n < |s| ==> IsSpace(s[n])
    decreases |s|
  {
    if |s| == 0 || IsSpace(s[0]) then 0
    else
      var n := 1 + WordLen(s[1..]);
      assert s[..n] == [s[0]] + s[1..][..n - 1];
      n
  }

  /** `s.split()`: the maximal runs of non-whitespace characters, in order. */
  function Words(s: string): (ws: seq<string>)
    ensures forall w :: w in ws ==> |w| > 0 && NoSpace(w)
    decreases |s|
  {
    if |s| == 0 then []
    else if IsSpace(s[0]) then Words(s[1..])
    else
      var n := WordLen(s);
      [s[..n]] + Words(s[n..])
  }

  /** `sep.join(ws)`. */
  function Join(sep: string, ws: seq<string>): string
    decreases |ws|
  {
    if |ws| == 0 then ""
    else if |ws| == 1 then ws[0]
    else ws[0] + sep + Join(sep, ws[1..])
  }

  /** A word followed by whitespace or nothing is one run. */
  lemma {:induction false} WordLenOfWord(w: string, rest: string)
    requires |w| > 0 && NoSpace(w)
    requires |rest| == 0 || IsSpace(rest[0])
    ensures WordLen(w + rest) == |w|
    decreases |w|
  {
    if |w| > 1 {
      assert (w + rest)[1..] == w[1..] + rest;
      WordLenOfWord(w[1..], rest);
    } else {
      assert (w + rest)[1..] == rest;
    }
  }

  /** Splitting words joined by single spaces gives the words back. */
  lemma {:induction false} WordsOfJoin(ws: seq<string>)
    requires forall w :: w in ws ==> |w| > 0 && NoSpace(w)
    ensures Words(Join(" ", ws)) == ws
    decreases |ws|
  {
    if |ws| == 1 {
      var w := ws[0];
      WordLenOfWord(w, "");
      assert w + "" == w;
      assert w[..|w|] == w;
      assert w[|w|..] == "";
    } else if |ws| > 1 {
      var w := ws[0];
      var rest := Join(" ", ws[1..]);
      var s := w + " " + rest;
      assert s == w + (" " + rest);
      WordLenOfWord(w, " " + rest);
      assert s[..|w|] == w;
      assert s[|w|..] == " " + rest;
      assert (" " + rest)[1..] == rest;
      assert ws[1..][0] in ws;
      assert forall v :: v in ws[1..] ==> v in ws;
      WordsOfJoin(ws[1..]);
      assert ws == [w] + ws[1..];
    }
  }

  /** Joining by single spaces: no whitespace at either end, and none besides single spaces. */
  ghost predicate SingleSpaced(s: string) {
    && (|s| > 0 ==> !IsSpace(s[0]) && !IsSpace(s[|s| - 1]))
    && (forall i :: 0 <= i < |s| && IsSpace(s[i]) ==> s[i] == ' ')
    && (forall i, j :: 0 <= i && j == i + 1 && j < |s| && s[i] == ' ' ==> s[j] != ' ')
  }

  /** A word without whitespace, a space, and a single-spaced rest are single-spaced. */
  lemma {:induction false} SpacedStep(w: string, rest: string)
    requires |w| > 0 && NoSpace(w) && |rest| > 0 && SingleSpaced(rest)
    ensures SingleSpaced(w + " " + rest)
  {
    var s := w + " " + rest;
    forall i | 0 <= i < |s| && IsSpace(s[i]) ensures s[i] == ' ' {
      if i > |w| {
        assert s[i] == rest[i - |w| - 1];
      }
    }
    forall i, j | 0 <= i && j == i + 1 && j < |s| && s[i] == ' ' ensures s[j] != ' ' {
      if i == |w| {
        assert s[j] == rest[0];
      } else if i > |w| {
        assert s[i] == rest[i - |w| - 1];
        assert s[j] == rest[j - |w| - 1];
      }
    }
    assert s[0] == w[0];
    assert s[|s| - 1] == rest[|rest| - 1];
  }

  lemma {:induction false} JoinSingleSpaced(ws: seq<string>)
    requires forall w :: w in ws ==> |w| > 0 && NoSpace(w)
    ensures SingleSpaced(Join(" ", ws))
    ensures |ws| > 0 ==> |Join(" ", ws)| > 0
    decreases |ws|
  {
    if |ws| > 1 {
      assert ws[0] in ws;
      assert forall v :: v in ws[1..] ==> v in ws;
      JoinSingleSpaced(ws[1..]);
      SpacedStep(ws[0], Join(" ", ws[1..]));
    } else if |ws| == 1 {
      assert ws[0] in ws;
    }
  }

  // ---------------------------------------------------------------------
  // strip()

  function StripLeft(s: string): (r: string)
    ensures |r| <= |s| && r == s[|s| - |r|..]
    ensures |r| > 0 ==> !IsSpace(r[0])
    ensures forall i :: 0 <= i < |s| - |r| ==> IsSpace(s[i])
    decreases |s|
  {
    if |s| > 0 && IsSpace(s[0]) then StripLeft(s[1..]) else s
  }

  function StripRight(s: string): (r: string)
    ensures |r| <= |s| && r == s[..|r|]
    ensures |r| > 0 ==> !IsSpace(r[|r| - 1])
    ensures forall i :: |r| <= i < |s| ==> IsSpace(s[i])
    decreases |s|
  {
    if |s| > 0 && IsSpace(s[|s| - 1]) then StripRight(s[..|s| - 1]) else s
  }

  /** `s.strip()`. */
  function Strip(s: string): string {
    StripRight(StripLeft(s))
  }

  /**
   * `strip()` removes exactly the whitespace at both ends: the result is a
   * contiguous part of the input with no whitespace at either end, and
   * everything removed before and after it is whitespace.
   */
  lemma {:induction false} StripMeaning(s: string)
    ensures var r := Strip(s);
      && (|r| > 0 ==> !IsSpace(r[0]) && !IsSpace(r[|r| - 1]))
      && exists a, b :: 0 <= a <= b <= |s| && r == s[a..b]
           && (forall i :: 0 <= i < a ==> IsSpace(s[i]))
           && (forall i :: b <= i < |s| ==> IsSpace(s[i]))
  {
    var a, b := StripBounds(s);
  }

  /** Where `strip()` cuts: after the leading and before the trailing whitespace. */
  lemma {:induction false} StripBounds(s: string) returns (a: nat, b: nat)
    ensures 0 <= a <= b <= |s| && Strip(s) == s[a..b]
    ensures forall i :: 0 <= i < a ==> IsSpace(s[i])
    ensures forall i :: b <= i < |s| ==> IsSpace(s[i])
  {
    var l := StripLeft(s);
    a := |s| - |l|;
    b := a + |StripRight(l)|;
    assert l == s[a..];
    forall i | b <= i < |s| ensures IsSpace(s[i]) {
      assert s[i] == l[i - a];
    }
  }

  // ---------------------------------------------------------------------
  // title()

  predicate IsUpper(c: char) { 'A' <= c <= 'Z' }
  predicate IsLower(c: char) { 'a' <= c <= 'z' }
  /** A character with case; `title()` lower-cases it after another cased character. */
  predicate IsCased(c: char) { IsUpper(c) || IsLower(c) }

  function Upper(c: char): char {
    if IsLower(c) then (c as int - 32) as char else c
  }

  function Lower(c: char): char {
    if IsUpper(c) then (c as int + 32) as char else c
  }

  /** `title()` from a position whose previous character was (`afterCased`) or was not cased. */
  function TitleFrom(s: string, afterCased: bool): (r: string)
    ensures |r| == |s|
    decreases |s|
  {
    if |s| == 0 then ""
    else [if afterCased then Lower(s[0]) else Upper(s[0])] + TitleFrom(s[1..], IsCased(s[0]))
  }

  /** `s.title()`. */
  function Title(s: string): string {
    TitleFrom(s, false)
  }

  /**
   * The title-case form: every cased character is upper case exactly when
   * it starts the string or follows a character without case.
   */
  ghost predicate Titled(s: string) {
    forall i :: 0 <= i < |s| && IsCased(s[i]) ==>
      (IsUpper(s[i]) <==> (i == 0 || !IsCased(s[i - 1])))
  }

  lemma {:induction false} TitleFromShape(s: string, afterCased: bool)
    ensures var r := TitleFrom(s, afterCased);
      && (forall i :: 0 <= i < |s| ==> (IsCased(r[i]) <==> IsCased(s[i])) && (IsSpace(r[i]) <==> IsSpace(s[i])))
      && (forall i :: 0 <= i < |s| && IsCased(s[i]) ==>
            (IsUpper(r[i]) <==> (if i == 0 then !afterCased else !IsCased(s[i - 1]))))
    decreases |s|
  {
    if |s| > 0 {
      TitleFromShape(s[1..], IsCased(s[0]));
      var r := TitleFrom(s, afterCased);
      assert r[1..] == TitleFrom(s[1..], IsCased(s[0]));
      forall i | 1 <= i < |s| ensures r[i] == r[1..][i - 1] && s[i] == s[1..][i - 1] {
      }
    }
  }

  /** `title()` keeps which characters are cased and which are whitespace, and produces the title-case form. */
  lemma {:induction false} TitleShape(s: string)
    ensures |Title(s)| == |s|
    ensures forall i :: 0 <= i < |s| ==> (IsCased(Title(s)[i]) <==> IsCased(s[i]))
    ensures forall i :: 0 <= i < |s| ==> (IsSpace(Title(s)[i]) <==> IsSpace(s[i]))
    ensures Titled(Title(s))
  {
    TitleFromShape(s, false);
  }

  /** Only the case of letters changes. */
  lemma {:induction false} TitleFromIdempotent(s: string, afterCased: bool)
    ensures TitleFrom(TitleFrom(s, afterCased), afterCased) == TitleFrom(s, afterCased)
    decreases |s|
  {
    if |s| > 0 {
      var r := TitleFrom(s, afterCased);
      assert r[0] == (if afterCased then Lower(s[0]) else Upper(s[0]));
      assert IsCased(r[0]) == IsCased(s[0]);
      assert r[1..] == TitleFrom(s[1..], IsCased(s[0]));
      TitleFromIdempotent(s[1..], IsCased(s[0]));
    }
  }

  /** After a character without case, `title()` starts afresh; a space is such a character. */
  lemma {:induction false} TitleFromAppend(a: string, b: string, afterCased: bool)
    requires |a| > 0
    ensures TitleFrom(a + b, afterCased) == TitleFrom(a, afterCased) + TitleFrom(b, IsCased(a[|a| - 1]))
    decreases |a|
  {
    if |a| > 1 {
      assert (a + b)[1..] == a[1..] + b;
      TitleFromAppend(a[1..], b, IsCased(a[0]));
    } else {
      assert (a + b)[1..] == b;
    }
  }

  /** `title()` of a word, a space and more: the space restarts the title case. */
  lemma {:induction false} TitleSpaced(w: string, rest: string)
    requires |w| > 0
    ensures Title(w + " " + rest) == Title(w) + " " + Title(rest)
  {
    TitleFromAppend(w, " " + rest, false);
    assert w + " " + rest == w + (" " + rest);
    TitleFromAppend(" ", rest, IsCased(w[|w| - 1]));
    assert Title(w) + (" " + Title(rest)) == Title(w) + " " + Title(rest);
  }

  /** `title()` of words joined by spaces is the join of the words' `title()`. */
  lemma {:induction false} TitleOfJoin(ws: seq<string>)
    requires forall w :: w in ws ==> |w| > 0
    ensures Title(Join(" ", ws)) == Join(" ", TitleAll(ws))
    decreases |ws|
  {
    if |ws| > 1 {
      assert ws[0] in ws;
      assert forall v :: v in ws[1..] ==> v in ws;
      TitleSpaced(ws[0], Join(" ", ws[1..]));
      TitleOfJoin(ws[1..]);
      assert TitleAll(ws)[1..] == TitleAll(ws[1..]);
    }
  }

  function TitleAll(ws: seq<string>): (ts: seq<string>)
    ensures |ts| == |ws| && forall i :: 0 <= i < |ws| ==> ts[i] == Title(ws[i])
  {
    seq(|ws|, i requires 0 <= i < |ws| => Title(ws[i]))
  }

  // ---------------------------------------------------------------------
  // replace(c, "")

  /** `s.replace(c, "")` for a single character `c`. */
  function Remove(s: string, c: char): (r: string)
    ensures c !in r
    ensures forall x :: x in r ==> x in s
    decreases |s|
  {
    if |s| == 0 then ""
    else Remove(s[..|s| - 1], c) + (if s[|s| - 1] == c then "" else [s[|s| - 1]])
  }

  /** The characters of `s` outside `cs`, in order. */
  function Keep(s: string, cs: set<char>): string
    decreases |s|
  {
    if |s| == 0 then ""
    else Keep(s[..|s| - 1], cs) + (if s[|s| - 1] in cs then "" else [s[|s| - 1]])
  }

  lemma {:induction false} KeepNone(s: string, cs: set<char>)
    ensures forall x :: x in Keep(s, cs) ==> x !in cs && x in s
    decreases |s|
  {
    if |s| > 0 {
      KeepNone(s[..|s| - 1], cs);
    }
  }

  /** Removing one more character after the others keeps exactly the characters outside the larger set. */
  lemma {:induction false} RemoveAfterKeep(s: string, cs: set<char>, c: char)
    ensures Remove(Keep(s, cs), c) == Keep(s, cs + {c})
    decreases |s|
  {
    if |s| > 0 {
      var init := s[..|s| - 1];
      RemoveAfterKeep(init, cs, c);
      var x := s[|s| - 1];
      var k := Keep(init, cs);
      if x in cs {
        assert Keep(s, cs) == k + "";
        assert k + "" == k;
      } else {
        var k' := k + [x];
        assert Keep(s, cs) == k';
        assert k'[..|k'| - 1] == k;
      }
    }
  }

  lemma {:induction false} KeepEmptySet(s: string)
    ensures Keep(s, {}) == s
    decreases |s|
  {
    if |s| > 0 {
      KeepEmptySet(s[..|s| - 1]);
      assert s == s[..|s| - 1] + [s[|s| - 1]];
    }
  }

  /** A string none of whose characters is in `cs` keeps all of them. */
  lemma {:induction false} KeepUntouched(s: string, cs: set<char>)
    requires forall x :: x in s ==> x !in cs
    ensures Keep(s, cs) == s
    decreases |s|
  {
    if |s| > 0 {
      var init := s[..|s| - 1];
      forall x | x in init ensures x !in cs {
        var i :| 0 <= i < |init| && init[i] == x;
        assert s[i] == x;
      }
      KeepUntouched(init, cs);
      assert s[|s| - 1] in s;
      assert s == init + [s[|s| - 1]];
    }
  }
}
