/**
 * The identity normaliser of the hunter login screen: a free-text hunter name
 * becomes the account key under which the profile and the missions are stored.
 * In JavaScript it is `name.trim().toLowerCase().replace(/\s+/g, '-')`; this
 * model keeps to ASCII: the whitespace characters are space, tab, line feed,
 * vertical tab, form feed and carriage return, and only 'A'..'Z' are lowered.
 */
module Identity {

  predicate IsSpace(c: char) {
    c == ' ' || c == '\t' || c == '\n' || c == '\U{000B}' || c == '\U{000C}' || c == '\r'
  }

  predicate IsUpper(c: char) {
    'A' <= c <= 'Z'
  }

  predicate NoSpace(s: string) {
    forall i :: 0 <= i < |s| ==> !IsSpace(s[i])
  }

  predicate NoUpper(s: string) {
    forall i :: 0 <= i < |s| ==> !IsUpper(s[i])
  }

  function LowerChar(c: char): (d: char)
    ensures !IsUpper(d)
    ensures IsSpace(d) <==> IsSpace(c)
    ensures !IsUpper(c) ==> d == c
  {
    if IsUpper(c) then (c as int - 'A' as int + 'a' as int) as char else c
  }

  /** `toLowerCase`, character by character. */
  function Lower(s: string): (r: string)
    ensures |r| == |s| && NoUpper(r)
    ensures forall i :: 0 <= i < |s| ==> r[i] == LowerChar(s[i])
  {
    seq(|s|, i requires 0 <= i < |s| => LowerChar(s[i]))
  }

  /** Drops the leading whitespace; what is kept does not start with whitespace. */
  function TrimStart(s: string): (r: string)
    ensures |r| <= |s|
    ensures r == [] || !IsSpace(r[0])
  {
    if s != [] && IsSpace(s[0]) then TrimStart(s[1..]) else s
  }

  /** Drops the trailing whitespace; what is kept does not end with whitespace. */
  function TrimEnd(s: string): (r: string)
    ensures |r| <= |s|
    ensures r == [] || !IsSpace(r[|r| - 1])
  {
    if s != [] && IsSpace(s[|s| - 1]) then TrimEnd(s[..|s| - 1]) else s
  }

  /** What TrimStart drops is whitespace, and what it keeps is a suffix of its input. */
  lemma {:induction false} TrimStartCutsSpace(s: string)
    ensures var r := TrimStart(s);
      && r == s[|s| - |r|..]
      && forall i :: 0 <= i < |s| - |r| ==> IsSpace(s[i])
    decreases |s|
  {
    if s != [] && IsSpace(s[0]) {
      TrimStartCutsSpace(s[1..]);
    }
  }

  /** What TrimEnd drops is whitespace, and what it keeps is a prefix of its input. */
  lemma {:induction false} TrimEndCutsSpace(s: string)
    ensures var r := TrimEnd(s);
      && r == s[..|r|]
      && forall i :: |r| <= i < |s| ==> IsSpace(s[i])
    decreases |s|
  {
    if s != [] && IsSpace(s[|s| - 1]) {
      TrimEndCutsSpace(s[..|s| - 1]);
    }
  }

  /** `trim`: no whitespace is left at either end. */
  function Trim(s: string): (r: string)
    ensures r == [] || (!IsSpace(r[0]) && !IsSpace(r[|r| - 1]))
  {
    TrimEndCutsSpace(TrimStart(s));
    TrimEnd(TrimStart(s))
  }

  /** Trim cuts only whitespace, from both ends, and keeps a slice of its input. */
  lemma TrimCutsSpace(s: string)
    ensures var a, r := |s| - |TrimStart(s)|, Trim(s);
      && a + |r| <= |s| && r == s[a..a + |r|]
      && (forall i :: 0 <= i < a ==> IsSpace(s[i]))
      && (forall i :: a + |r| <= i < |s| ==> IsSpace(s[i]))
  {
    TrimStartCutsSpace(s);
    TrimEndCutsSpace(TrimStart(s));
  }

  /** `replace(/\s+/g, '-')`: every maximal run of whitespace becomes one hyphen. */
  function Hyphenate(s: string): (r: string)
    ensures NoSpace(r)
    ensures NoUpper(s) ==> NoUpper(r)
    decreases |s|
  {
    if s == [] then []
    else if IsSpace(s[0]) then TrimStartCutsSpace(s); "-" + Hyphenate(TrimStart(s))
    else [s[0]] + Hyphenate(s[1..])
  }

  /** `getNormalizedId`: the account key of a hunter name. */
  function Normalize(name: string): (key: string)
    ensures NoSpace(key) && NoUpper(key)
  {
    Hyphenate(Lower(Trim(name)))
  }

  // ---------------------------------------------------------------------------
  // A reference definition: the key is the lower-cased words joined by hyphens.

  /** Length of the word at the start of `s` (its longest whitespace-free prefix). */
  function WordLength(s: string): (n: nat)
    ensures n <= |s| && NoSpace(s[..n])
    ensures n < |s| ==> IsSpace(s[n])
  {
    if s == [] || IsSpace(s[0]) then 0 else 1 + WordLength(s[1..])
  }

  /** The maximal whitespace-free, non-empty pieces of `s`, in order. */
  function Words(s: string): (ws: seq<string>)
    ensures forall i :: 0 <= i < |ws| ==> ws[i] != [] && NoSpace(ws[i])
    decreases |s|
  {
    if s == [] then []
    else if IsSpace(s[0]) then Words(s[1..])
    else var n := WordLength(s); [s[..n]] + Words(s[n..])
  }

  function JoinWithHyphens(ws: seq<string>): string {
    if ws == [] then []
    else if |ws| == 1 then ws[0]
    else ws[0] + ("-" + JoinWithHyphens(ws[1..]))
  }

  lemma {:induction false} HyphenateNoSpace(s: string)
    requires NoSpace(s)
    ensures Hyphenate(s) == s
    decreases |s|
  {
    if s != [] {
      HyphenateNoSpace(s[1..]);
    }
  }

  lemma HyphenateCons(c: char, s: string)
    requires !IsSpace(c)
    ensures Hyphenate([c] + s) == [c] + Hyphenate(s)
  {
    assert ([c] + s)[1..] == s;
  }

  lemma {:induction false} HyphenateAfterWord(w: string, s: string)
    requires NoSpace(w)
    ensures Hyphenate(w + s) == w + Hyphenate(s)
    decreases |w|
  {
    if w != [] {
      var tail := w[1..] + s;
      assert w + s == [w[0]] + tail;
      HyphenateCons(w[0], tail);
      HyphenateAfterWord(w[1..], s);
      assert [w[0]] + (w[1..] + Hyphenate(s)) == w + Hyphenate(s);
    } else {
      assert w + s == s && w + Hyphenate(s) == Hyphenate(s);
    }
  }

  lemma {:induction false} WordsSkipLeadingSpace(s: string)
    ensures Words(TrimStart(s)) == Words(s)
    decreases |s|
  {
    if s != [] && IsSpace(s[0]) {
      WordsSkipLeadingSpace(s[1..]);
    }
  }

  lemma {:induction false} WordLengthAppendSpace(s: string, c: char)
    requires IsSpace(c)
    ensures WordLength(s + [c]) == WordLength(s)
    decreases |s|
  {
    if s != [] && !IsSpace(s[0]) {
      assert (s + [c])[1..] == s[1..] + [c];
      WordLengthAppendSpace(s[1..], c);
    }
  }

  lemma {:induction false} WordsAppendSpace(s: string, c: char)
    requires IsSpace(c)
    ensures Words(s + [c]) == Words(s)
    decreases |s|
  {
    if s == [] {
      assert Words([c]) == Words([]);
    } else if IsSpace(s[0]) {
      assert (s + [c])[1..] == s[1..] + [c];
      WordsAppendSpace(s[1..], c);
    } else {
      var n := WordLength(s);
      WordLengthAppendSpace(s, c);
      assert (s + [c])[..n] == s[..n];
      assert (s + [c])[n..] == s[n..] + [c];
      WordsAppendSpace(s[n..], c);
    }
  }

  lemma {:induction false} WordsSkipTrailingSpace(s: string)
    ensures Words(TrimEnd(s)) == Words(s)
    decreases |s|
  {
    if s != [] && IsSpace(s[|s| - 1]) {
      var init := s[..|s| - 1];
      assert s == init + [s[|s| - 1]];
      WordsAppendSpace(init, s[|s| - 1]);
      WordsSkipTrailingSpace(init);
    }
  }

  lemma JoinCons(w: string, ws: seq<string>)
    requires ws != []
    ensures JoinWithHyphens([w] + ws) == w + ("-" + JoinWithHyphens(ws))
  {
    assert ([w] + ws)[1..] == ws;
  }

  /** Splitting at the end of the first word, when whitespace follows it. */
  lemma WordsAfterFirstWord(t: string)
    requires t != [] && !IsSpace(t[0]) && WordLength(t) < |t|
    ensures Words(t) == [t[..WordLength(t)]] + Words(TrimStart(t[WordLength(t)..]))
  {
    WordsSkipLeadingSpace(t[WordLength(t)..]);
  }

  lemma HyphenateSpaceRun(s: string)
    requires s != [] && IsSpace(s[0])
    ensures Hyphenate(s) == "-" + Hyphenate(TrimStart(s))
  {
  }

  lemma HyphenateWordThenSpace(w: string, rest: string)
    requires NoSpace(w) && rest != [] && IsSpace(rest[0])
    ensures Hyphenate(w + rest) == w + ("-" + Hyphenate(TrimStart(rest)))
  {
    HyphenateAfterWord(w, rest);
    HyphenateSpaceRun(rest);
  }

  lemma WordsStartWithWord(u: string)
    requires u != [] && !IsSpace(u[0])
    ensures Words(u) != []
  {
    var m := WordLength(u);
    assert Words(u) == [u[..m]] + Words(u[m..]);
  }

  /** On a string with no whitespace at either end, the run replacement joins the words. */
  lemma {:induction false} HyphenateJoinsWords(t: string)
    requires t == [] || (!IsSpace(t[0]) && !IsSpace(t[|t| - 1]))
    ensures Hyphenate(t) == JoinWithHyphens(Words(t))
    decreases |t|
  {
    if t != [] {
      var n := WordLength(t);
      var w := t[..n];
      if n == |t| {
        assert w == t;
        HyphenateNoSpace(t);
        assert Words(t) == [t] + Words([]);
      } else {
        var u := TrimStart(t[n..]);
        assert u != [] && !IsSpace(u[|u| - 1]) by {
          TrimStartCutsSpace(t[n..]);
          assert u == t[|t| - |u|..];
        }
        assert Hyphenate(t) == w + ("-" + Hyphenate(u)) by {
          assert t == w + t[n..];
          HyphenateWordThenSpace(w, t[n..]);
        }
        assert Words(t) == [w] + Words(u) by {
          WordsAfterFirstWord(t);
        }
        HyphenateJoinsWords(u);
        WordsStartWithWord(u);
        JoinCons(w, Words(u));
      }
    }
  }

  lemma {:induction false} LowerTrimStart(s: string)
    ensures Lower(TrimStart(s)) == TrimStart(Lower(s))
    decreases |s|
  {
    if s != [] && IsSpace(s[0]) {
      assert Lower(s)[1..] == Lower(s[1..]);
      LowerTrimStart(s[1..]);
    }
  }

  lemma {:induction false} LowerTrimEnd(s: string)
    ensures Lower(TrimEnd(s)) == TrimEnd(Lower(s))
    decreases |s|
  {
    if s != [] && IsSpace(s[|s| - 1]) {
      assert Lower(s)[..|s| - 1] == Lower(s[..|s| - 1]);
      LowerTrimEnd(s[..|s| - 1]);
    }
  }

  /** The normalised key is the lower-cased words of the name joined by single hyphens. */
  lemma NormalizeJoinsWords(name: string)
    ensures Normalize(name) == JoinWithHyphens(Words(Lower(name)))
  {
    var t := TrimStart(name);
    LowerTrimStart(name);
    LowerTrimEnd(t);
    var l := Lower(Trim(name));
    assert l == TrimEnd(TrimStart(Lower(name)));
    HyphenateJoinsWords(l);
    WordsSkipTrailingSpace(TrimStart(Lower(name)));
    WordsSkipLeadingSpace(Lower(name));
  }

  // ---------------------------------------------------------------------------
  // Further properties of the key.

  lemma TrimNoSpace(s: string)
    requires NoSpace(s)
    ensures Trim(s) == s
  {
  }

  lemma LowerNoUpper(s: string)
    requires NoUpper(s)
    ensures Lower(s) == s
  {
  }

  /** Normalising a key again gives the same key. */
  lemma NormalizeIdempotent(name: string)
    ensures Normalize(Normalize(name)) == Normalize(name)
  {
    var key := Normalize(name);
    TrimNoSpace(key);
    LowerNoUpper(key);
    HyphenateNoSpace(key);
  }

  /** The trimmed display name stored at registration normalises to the same key as the raw name. */
  lemma NormalizeTrim(name: string)
    ensures Normalize(Trim(name)) == Normalize(name)
  {
    var t := TrimStart(name);
    var r := TrimEnd(t);
    TrimEndCutsSpace(t);
    assert TrimStart(r) == r;
    assert TrimEnd(r) == r;
  }

  /** The key is empty exactly when the name is blank (the login form's `!hunterName.trim()` test). */
  lemma NormalizeEmpty(name: string)
    ensures Normalize(name) == [] <==> Trim(name) == []
  {
    var l := Lower(Trim(name));
    if l != [] {
      assert Hyphenate(l) == [l[0]] + Hyphenate(l[1..]);
    }
  }

  // ---------------------------------------------------------------------------
  // Names of two words.

  predicate AllSpace(s: string) {
    forall i :: 0 <= i < |s| ==> IsSpace(s[i])
  }

  lemma {:induction false} TrimStartPadded(a: string, w: string)
    requires AllSpace(a) && (w == [] || !IsSpace(w[0]))
    ensures TrimStart(a + w) == w
    decreases |a|
  {
    if a != [] {
      assert (a + w)[1..] == a[1..] + w;
      TrimStartPadded(a[1..], w);
    } else {
      assert a + w == w;
    }
  }
  lemma {:induction false} TrimEndPadded(w: string, b: string)
    requires AllSpace(b) && (w == [] || !IsSpace(w[|w| - 1]))
    ensures TrimEnd(w + b) == w
    decreases |b|
  {
    if b != [] {
      assert (w + b)[..|w + b| - 1] == w + b[..|b| - 1];
      TrimEndPadded(w, b[..|b| - 1]);
    } else {
      assert w + b == w;
    }
  }
  lemma TrimPadded(a: string, w: string, b: string)
    requires AllSpace(a) && AllSpace(b) && w != [] && !IsSpace(w[0]) && !IsSpace(w[|w| - 1])
    ensures Trim(a + w + b) == w
  {
    assert a + w + b == a + (w + b);
    TrimStartPadded(a, w + b);
    TrimEndPadded(w, b);
  }
  lemma HyphenateTwoWords(v: string, gap: string, w: string)
    requires NoSpace(v) && NoSpace(w) && gap != [] && AllSpace(gap)
    ensures Hyphenate(v + gap + w) == v + "-" + w
  {
    assert Hyphenate(v + (gap + w)) == v + ("-" + Hyphenate(TrimStart(gap + w))) by {
      HyphenateWordThenSpace(v, gap + w);
    }
    assert TrimStart(gap + w) == w by {
      TrimStartPadded(gap, w);
    }
    assert Hyphenate(w) == w by {
      HyphenateNoSpace(w);
    }
    assert v + gap + w == v + (gap + w);
    assert v + ("-" + w) == v + "-" + w;
  }
  lemma LowerAppend(a: string, b: string)
    ensures Lower(a + b) == Lower(a) + Lower(b)
  {
  }
  lemma NormalizeTwoWords(pre: string, v: string, gap: string, w: string, post: string)
    requires TwoWords(pre, v, gap, w, post)
    ensures Normalize(pre + v + gap + w + post) == Lower(v) + "-" + Lower(w)
  {
    var mid := v + gap + w;
    var name := pre + v + gap + w + post;
    assert Trim(name) == mid by {
      assert name == pre + mid + post;
      TrimPadded(pre, mid, post);
    }
    var lv, lg, lw := Lower(v), Lower(gap), Lower(w);
    assert Lower(mid) == lv + lg + lw by {
      LowerAppend(v, gap);
      LowerAppend(v + gap, w);
    }
    assert Hyphenate(lv + lg + lw) == lv + "-" + lw by {
      assert AllSpace(lg) && NoSpace(lv) && NoSpace(lw);
      HyphenateTwoWords(lv, lg, lw);
    }
  }

  /** The pieces of a two-word name: blank padding, a word, a gap, a word, blank padding. */
  predicate TwoWords(pre: string, v: string, gap: string, w: string, post: string) {
    && AllSpace(pre) && AllSpace(gap) && AllSpace(post) && gap != []
    && v != [] && w != [] && NoSpace(v) && NoSpace(w)
  }

  lemma SuperHunterPieces(name: string)
    requires name == "  Super Hunter  "
    ensures name == "  " + "Super" + " " + "Hunter" + "  "
    ensures TwoWords("  ", "Super", " ", "Hunter", "  ")
  {
  }

  lemma SuperHunterLower()
    ensures Lower("Super") + "-" + Lower("Hunter") == "super-hunter"
  {
    assert Lower("Super") == "super";
    assert Lower("Hunter") == "hunter";
  }

  /** The example from the login screen's comment. */
  lemma SuperHunterKey(name: string)
    requires name == "  Super Hunter  "
    ensures Normalize(name) == "super-hunter"
  {
    SuperHunterPieces(name);
    NormalizeTwoWords("  ", "Super", " ", "Hunter", "  ");
    SuperHunterLower();
  }

  lemma AshKetchumPieces(name: string)
    requires name == "Ash Ketchum"
    ensures name == "" + "Ash" + " " + "Ketchum" + ""
    ensures TwoWords("", "Ash", " ", "Ketchum", "")
  {
  }

  lemma AshKetchumLower(v: string, w: string)
    requires v == "Ash" || v == "ash"
    requires w == "Ketchum" || w == "KETCHUM"
    ensures Lower(v) + "-" + Lower(w) == "ash-ketchum"
  {
    assert Lower(v) == "ash";
    assert Lower(w) == "ketchum";
  }

  /** The name as first registered ... */
  lemma AshKetchumKey(name: string)
    requires name == "Ash Ketchum"
    ensures Normalize(name) == "ash-ketchum"
  {
    AshKetchumPieces(name);
    NormalizeTwoWords("", "Ash", " ", "Ketchum", "");
    AshKetchumLower("Ash", "Ketchum");
  }

  lemma AshKetchumRetypedPieces(name: string)
    requires name == " ash   KETCHUM "
    ensures name == " " + "ash" + "   " + "KETCHUM" + " "
    ensures TwoWords(" ", "ash", "   ", "KETCHUM", " ")
  {
  }

  /** ... and typed again with other case and spacing: the same account key. */
  lemma AshKetchumRetypedKey(name: string)
    requires name == " ash   KETCHUM "
    ensures Normalize(name) == "ash-ketchum"
  {
    AshKetchumRetypedPieces(name);
    NormalizeTwoWords(" ", "ash", "   ", "KETCHUM", " ");
    AshKetchumLower("ash", "KETCHUM");
  }
}
