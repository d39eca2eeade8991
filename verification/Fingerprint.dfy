/** Fuzzy antigen fingerprints (leukocyte_protocol.py, lines 74-133): canonical text,
    character shingles, MinHash signatures, and the similarity estimate between signatures. */
module Fingerprint {
  import opened Prelude

  const SHINGLE_K: nat := 4
  const NUM_PERM: nat := 128
  const FUZZY_THRESHOLD: real := 0.80

  type Signature = seq<nat>

  /** The library functions the fingerprints rest on. `normalize` is NFKC followed by lower-casing;
      `slot(i, s)` is the keyed 64-bit hash of shingle `s` under salt `i`. */
  datatype Hashing = Hashing(normalize: string -> string,
                             slot: (nat, string) -> nat,
                             sha256: string -> string)
  {
    /** The one fact about Unicode that is used: text over [a-z0-9 ] is already normalized. */
    ghost predicate FixesPlainText() {
      forall s: string :: (forall c :: c in s ==> IsAlnum(c) || c == ' ') ==> normalize(s) == s
    }
  }

  // ---------------------------------------------------------------------------
  // Canonical text
  // ---------------------------------------------------------------------------

  predicate IsAlnum(c: char) {
    'a' <= c <= 'z' || '0' <= c <= '9'
  }

  predicate IsGap(c: char) {
    !IsAlnum(c)
  }

  predicate IsSpace(c: char) {
    c == ' ' || c == '\t' || c == '\n' || c == '\r'
  }

  function FoldLeet(c: char): char {
    match c
    case '4' => 'a'
    case '3' => 'e'
    case '0' => 'o'
    case '1' => 'i'
    case '5' => 's'
    case '7' => 't'
    case '$' => 's'
    case '@' => 'a'
    case _ => c
  }

  function Translate(s: string): string {
    seq(|s|, i requires 0 <= i < |s| => FoldLeet(s[i]))
  }

  function TakeWhile(s: string, p: char -> bool): (r: string)
    ensures forall i :: 0 <= i < |r| ==> p(r[i])
  {
    if s == [] || !p(s[0]) then [] else [s[0]] + TakeWhile(s[1..], p)
  }

  function DropWhile(s: string, p: char -> bool): (r: string)
    ensures |r| <= |s|
    ensures s != [] && p(s[0]) ==> |r| < |s|
    ensures r != [] ==> !p(r[0])
  {
    if s == [] || !p(s[0]) then s else DropWhile(s[1..], p)
  }

  lemma {:induction false} TakeDrop(s: string, p: char -> bool)
    ensures TakeWhile(s, p) + DropWhile(s, p) == s
  {
    if s != [] && p(s[0]) {
      TakeDrop(s[1..], p);
      assert s == [s[0]] + s[1..];
    }
  }

  /** `re.sub` with a run pattern: every maximal run of characters in `p` becomes one space. */
  function SubRuns(s: string, p: char -> bool): string
    decreases |s|
  {
    if s == [] then []
    else if p(s[0]) then " " + SubRuns(DropWhile(s, p), p)
    else [s[0]] + SubRuns(s[1..], p)
  }

  function StripRight(s: string): string {
    if s != [] && IsSpace(s[|s| - 1]) then StripRight(s[..|s| - 1]) else s
  }

  function Strip(s: string): string {
    StripRight(DropWhile(s, IsSpace))
  }

  function Canonicalize(env: Hashing, text: string): string {
    var folded := Translate(env.normalize(text));
    Strip(SubRuns(SubRuns(folded, IsGap), IsSpace))
  }

  // The reference reading: the words of a text are its maximal alphanumeric runs.

  function Words(s: string): (ws: seq<string>)
    ensures AreWords(ws)
    decreases |s|
  {
    if s == [] then []
    else if IsAlnum(s[0]) then [TakeWhile(s, IsAlnum)] + Words(DropWhile(s, IsAlnum))
    else Words(s[1..])
  }

  ghost predicate AreWords(ws: seq<string>) {
    forall i :: 0 <= i < |ws| ==> IsWord(ws[i])
  }

  ghost predicate IsWord(w: string) {
    w != [] && forall i :: 0 <= i < |w| ==> IsAlnum(w[i])
  }

  function Join(ws: seq<string>): string {
    if ws == [] then [] else if |ws| == 1 then ws[0] else ws[0] + " " + Join(ws[1..])
  }

  /** Trimmed, single-spaced text over the characters accepted by `ok`. */
  ghost predicate SingleSpaced(t: string, ok: char -> bool) {
    && (forall c :: c in t ==> ok(c) || c == ' ')
    && (t != [] ==> t[0] != ' ' && t[|t| - 1] != ' ')
    && (forall i :: 0 <= i < |t| - 1 ==> t[i] != ' ' || t[i + 1] != ' ')
  }

  lemma SubRunsStep(c: char, rest: string)
    ensures IsAlnum(c) ==> SubRuns([c] + rest, IsGap) == [c] + SubRuns(rest, IsGap)
    ensures !IsAlnum(c) ==> SubRuns([c] + rest, IsGap) == " " + SubRuns(DropWhile([c] + rest, IsGap), IsGap)
  {
    var s := [c] + rest;
    assert s[0] == c && s[1..] == rest;
  }

  lemma {:induction false} SubRunsKeepsWord(w: string, rest: string)
    requires forall i :: 0 <= i < |w| ==> IsAlnum(w[i])
    ensures SubRuns(w + rest, IsGap) == w + SubRuns(rest, IsGap)
  {
    if w == [] {
      assert w + rest == rest;
    } else {
      var w', out := w[1..], SubRuns(rest, IsGap);
      assert w + rest == [w[0]] + (w' + rest);
      SubRunsStep(w[0], w' + rest);
      SubRunsKeepsWord(w', rest);
      assert [w[0]] + (w' + out) == w + out;
    }
  }

  /** A text that opens with a word collapses to that word, then (if anything follows) a space and the
      collapse of what follows the gap. */
  lemma CollapseFirstWord(s: string)
    requires s != [] && IsAlnum(s[0])
    ensures var w, rest := TakeWhile(s, IsAlnum), DropWhile(s, IsAlnum);
            && (rest == [] ==> SubRuns(s, IsGap) == w)
            && (rest != [] ==> SubRuns(s, IsGap) == w + " " + SubRuns(DropWhile(rest, IsGap), IsGap))
  {
    var w, rest := TakeWhile(s, IsAlnum), DropWhile(s, IsAlnum);
    TakeDrop(s, IsAlnum);
    SubRunsKeepsWord(w, rest);
    if rest == [] {
      assert w + SubRuns(rest, IsGap) == w;
    } else {
      GapCollapses(w, rest);
    }
  }

  lemma GapCollapses(w: string, rest: string)
    requires rest != [] && IsGap(rest[0])
    ensures w + SubRuns(rest, IsGap) == w + " " + SubRuns(DropWhile(rest, IsGap), IsGap)
  {
  }

  lemma FirstWord(s: string)
    requires s != [] && IsAlnum(s[0])
    ensures var w, rest := TakeWhile(s, IsAlnum), DropWhile(s, IsAlnum);
            Words(s) == [w] + (if rest == [] then [] else Words(DropWhile(rest, IsGap)))
  {
    var rest := DropWhile(s, IsAlnum);
    if rest != [] {
      WordsSkipGap(rest);
    }
  }

  lemma {:induction false} CollapseIsJoin(s: string) returns (post: string)
    requires s != [] ==> IsAlnum(s[0])
    ensures post == "" || post == " "
    ensures SubRuns(s, IsGap) == Join(Words(s)) + post
    ensures s != [] ==> Words(s) != []
    decreases |s|
  {
    if s == [] {
      post := "";
      return;
    }
    CollapseFirstWord(s);
    FirstWord(s);
    var w, rest := TakeWhile(s, IsAlnum), DropWhile(s, IsAlnum);
    if rest == [] {
      post := "";
      JoinCons(w, []);
    } else {
      var next := DropWhile(rest, IsGap);
      post := CollapseIsJoin(next);
      JoinCons(w, Words(next));
      if next == [] {
        post := " ";
      } else {
        Regroup(w, Join(Words(next)), post);
      }
    }
  }

  lemma Regroup(w: string, t: string, post: string)
    ensures w + " " + (t + post) == (w + " " + t) + post
  {
  }

  lemma JoinCons(w: string, ws: seq<string>)
    ensures Join([w] + ws) == if ws == [] then w else w + " " + Join(ws)
  {
    assert ([w] + ws)[1..] == ws;
    assert [w] + [] == [w];
  }

  /** Collapsing leaves exactly the joined words, up to one space on either side. */
  lemma CollapseIsPaddedJoin(s: string) returns (pre: string, post: string)
    ensures pre == "" || pre == " "
    ensures post == "" || post == " "
    ensures SubRuns(s, IsGap) == pre + Join(Words(s)) + post
  {
    if s == [] || IsAlnum(s[0]) {
      pre := "";
      post := CollapseIsJoin(s);
      assert "" + Join(Words(s)) == Join(Words(s));
    } else {
      pre := " ";
      post := CollapseIsJoin(DropWhile(s, IsGap));
      WordsSkipGap(s);
      assert " " + (Join(Words(s)) + post) == " " + Join(Words(s)) + post;
    }
  }

  lemma {:induction false} WordsSkipGap(s: string)
    ensures Words(s) == Words(DropWhile(s, IsGap))
  {
    if s != [] && !IsAlnum(s[0]) {
      WordsSkipGap(s[1..]);
    }
  }

  lemma {:induction false} JoinIsSingleSpaced(ws: seq<string>)
    requires AreWords(ws)
    ensures SingleSpaced(Join(ws), IsAlnum)
    ensures ws != [] ==> Join(ws) != []
  {
    if |ws| > 1 {
      JoinIsSingleSpaced(ws[1..]);
      assert ws[0] in ws;
      var t, u := Join(ws), Join(ws[1..]);
      assert t == ws[0] + " " + u;
      forall i | 0 <= i < |t| - 1
        ensures t[i] != ' ' || t[i + 1] != ' '
      {
        if i < |ws[0]| {
          assert t[i] == ws[0][i] && ws[0][i] in ws[0];
        } else if i == |ws[0]| {
          assert t[i + 1] == u[0];
        } else {
          assert t[i] == u[i - |ws[0]| - 1] && t[i + 1] == u[i - |ws[0]|];
        }
      }
      assert t[0] == ws[0][0] && ws[0][0] in ws[0];
    } else if |ws| == 1 {
      var t := ws[0];
      assert t in ws;
      assert t[0] in t && t[|t| - 1] in t;
      forall i | 0 <= i < |t| - 1
        ensures t[i] != ' '
      {
        assert t[i] in t;
      }
    }
  }

  lemma {:induction false} SubRunsFixesLoneSpaces(t: string)
    requires forall c :: c in t ==> IsAlnum(c) || c == ' '
    requires forall i :: 0 <= i < |t| - 1 ==> t[i] != ' ' || t[i + 1] != ' '
    ensures SubRuns(t, IsSpace) == t
  {
    if t != [] {
      var u := t[1..];
      forall i | 0 <= i < |u| - 1
        ensures u[i] != ' ' || u[i + 1] != ' '
      {
        assert u[i] == t[i + 1] && u[i + 1] == t[i + 2];
      }
      SubRunsFixesLoneSpaces(t[1..]);
      assert t == [t[0]] + t[1..];
      if IsSpace(t[0]) {
        assert t[0] in t;
        if |t| > 1 {
          assert t[1] in t && t[1] != ' ';
        }
        assert DropWhile(t, IsSpace) == t[1..];
      }
    }
  }

  lemma StripRemovesPadding(pre: string, t: string, post: string)
    requires pre == "" || pre == " "
    requires post == "" || post == " "
    requires t != [] && !IsSpace(t[0]) && !IsSpace(t[|t| - 1])
    ensures Strip(pre + t + post) == t
  {
    assert pre + t + post == pre + (t + post);
    DropLeadingSpace(pre, t + post);
    DropTrailingSpace(t, post);
  }

  lemma DropLeadingSpace(pre: string, t: string)
    requires pre == "" || pre == " "
    requires t != [] && !IsSpace(t[0])
    ensures DropWhile(pre + t, IsSpace) == t
  {
    if pre == "" {
      assert pre + t == t;
    } else {
      assert (pre + t)[1..] == t;
    }
  }

  lemma DropTrailingSpace(t: string, post: string)
    requires post == "" || post == " "
    requires t != [] && !IsSpace(t[|t| - 1])
    ensures StripRight(t + post) == t
  {
    if post == "" {
      assert t + post == t;
    } else {
      assert (t + post)[..|t + post| - 1] == t;
    }
  }

  /** Padding single-spaced text by at most one space on either side creates no double space. */
  lemma PaddingIsLone(pre: string, t: string, post: string)
    requires pre == "" || pre == " "
    requires post == "" || post == " "
    requires t != [] && SingleSpaced(t, IsAlnum)
    ensures var s := pre + t + post;
            && (forall c :: c in s ==> IsAlnum(c) || c == ' ')
            && (forall i :: 0 <= i < |s| - 1 ==> s[i] != ' ' || s[i + 1] != ' ')
  {
    var s := pre + t + post;
    forall i | 0 <= i < |s| - 1
      ensures s[i] != ' ' || s[i + 1] != ' '
    {
      var j := i - |pre|;
      if j < 0 {
        assert s[i + 1] == t[0];
      } else if j < |t| - 1 {
        assert s[i] == t[j] && s[i + 1] == t[j + 1];
      } else {
        assert s[i] == t[|t| - 1];
      }
    }
  }

  lemma StripsToNothing(pre: string, post: string)
    requires pre == "" || pre == " "
    requires post == "" || post == " "
    ensures Strip(SubRuns(pre + post, IsSpace)) == ""
  {
    assert DropWhile("", IsSpace) == "";
    assert DropWhile(" ", IsSpace) == "";
    var s := pre + post;
    if s != "" {
      assert s == " " || s == "  ";
      assert s[1..] == "" || s[1..] == " ";
      assert DropWhile(s, IsSpace) == "";
      assert SubRuns(s, IsSpace) == " " + "" == " ";
    }
  }

  /** Canonical text is the folded text's alphanumeric words, joined by single spaces. */
  lemma CanonicalIsJoinedWords(env: Hashing, text: string)
    ensures Canonicalize(env, text) == Join(Words(Translate(env.normalize(text))))
  {
    var s := Translate(env.normalize(text));
    var pre, post := CollapseIsPaddedJoin(s);
    var t := Join(Words(s));
    JoinIsSingleSpaced(Words(s));
    if t == [] {
      assert pre + t + post == pre + post;
      StripsToNothing(pre, post);
    } else {
      PaddingIsLone(pre, t, post);
      SubRunsFixesLoneSpaces(pre + t + post);
      assert t[0] in t && t[|t| - 1] in t;
      StripRemovesPadding(pre, t, post);
    }
  }

  /** Letters, and the digits no leet substitution maps away. */
  predicate IsCanonicalChar(c: char) {
    'a' <= c <= 'z' || c == '2' || c == '6' || c == '8' || c == '9'
  }

  lemma {:induction false} JoinChars(ws: seq<string>, ok: char -> bool)
    requires forall i, j :: 0 <= i < |ws| && 0 <= j < |ws[i]| ==> ok(ws[i][j])
    ensures forall c :: c in Join(ws) ==> ok(c) || c == ' '
  {
    if |ws| > 1 {
      JoinChars(ws[1..], ok);
    }
  }

  lemma {:induction false} WordChars(s: string, ok: char -> bool)
    requires forall c :: c in s && IsAlnum(c) ==> ok(c)
    ensures forall i, j :: 0 <= i < |Words(s)| && 0 <= j < |Words(s)[i]| ==> ok(Words(s)[i][j])
    decreases |s|
  {
    if s == [] {
    } else if IsAlnum(s[0]) {
      var w, rest := TakeWhile(s, IsAlnum), DropWhile(s, IsAlnum);
      TakeDrop(s, IsAlnum);
      assert s == w + rest;
      WordChars(rest, ok);
      assert forall j :: 0 <= j < |w| ==> w[j] in w && w[j] in s;
    } else {
      WordChars(s[1..], ok);
    }
  }

  /** Canonical text is trimmed, single-spaced, and free of every character the folding maps away. */
  lemma CanonicalShape(env: Hashing, text: string)
    ensures SingleSpaced(Canonicalize(env, text), IsCanonicalChar)
  {
    var s := Translate(env.normalize(text));
    CanonicalIsJoinedWords(env, text);
    JoinIsSingleSpaced(Words(s));
    forall c | c in s && IsAlnum(c)
      ensures IsCanonicalChar(c)
    {
      var i :| 0 <= i < |s| && s[i] == c;
      assert c == FoldLeet(env.normalize(text)[i]);
    }
    WordChars(s, IsCanonicalChar);
    JoinChars(Words(s), IsCanonicalChar);
  }

  lemma {:induction false} TakeWord(w: string, rest: string)
    requires IsWord(w)
    requires rest != [] ==> !IsAlnum(rest[0])
    ensures TakeWhile(w + rest, IsAlnum) == w
    ensures DropWhile(w + rest, IsAlnum) == rest
  {
    assert (w + rest)[0] == w[0] && w[0] in w;
    assert (w + rest)[1..] == w[1..] + rest;
    if |w| == 1 {
      assert w[1..] + rest == rest;
      assert TakeWhile(rest, IsAlnum) == [];
      assert w == [w[0]];
    } else {
      TakeWord(w[1..], rest);
      assert w == [w[0]] + w[1..];
    }
  }

  /** Splitting undoes joining. */
  lemma {:induction false} WordsOfJoin(ws: seq<string>)
    requires AreWords(ws)
    ensures Words(Join(ws)) == ws
  {
    if |ws| == 1 {
      TakeWord(ws[0], "");
      assert ws[0] + "" == ws[0];
      assert Words("") == [];
      assert ws == [ws[0]];
    } else if |ws| > 1 {
      var tail := Join(ws[1..]);
      WordsOfJoin(ws[1..]);
      TakeWord(ws[0], " " + tail);
      assert ws[0] + (" " + tail) == Join(ws);
      assert (" " + tail)[1..] == tail;
      assert Words(" " + tail) == Words(tail);
      assert Join(ws)[0] == ws[0][0] && ws[0][0] in ws[0];
      assert ws == [ws[0]] + ws[1..];
    }
  }

  /** Two payloads fold to the same canonical text exactly when they have the same folded words. */
  lemma SameCanonicalIffSameWords(env: Hashing, p: string, q: string)
    ensures Canonicalize(env, p) == Canonicalize(env, q)
       <==> Words(Translate(env.normalize(p))) == Words(Translate(env.normalize(q)))
  {
    CanonicalIsJoinedWords(env, p);
    CanonicalIsJoinedWords(env, q);
    WordsOfJoin(Words(Translate(env.normalize(p))));
    WordsOfJoin(Words(Translate(env.normalize(q))));
  }

  lemma CanonicalizeIdempotent(env: Hashing, text: string)
    requires env.FixesPlainText()
    ensures Canonicalize(env, Canonicalize(env, text)) == Canonicalize(env, text)
  {
    var c := Canonicalize(env, text);
    CanonicalShape(env, text);
    assert env.normalize(c) == c;
    forall i | 0 <= i < |c|
      ensures FoldLeet(c[i]) == c[i]
    {
      assert c[i] in c;
    }
    assert Translate(c) == c;
    CanonicalIsJoinedWords(env, text);
    CanonicalIsJoinedWords(env, c);
    WordsOfJoin(Words(Translate(env.normalize(text))));
  }

  /** `c` stands for the letter `plain`, as itself or in one of the substitutions attackers use. */
  predicate Spells(c: char, plain: char) {
    || c == plain
    || (plain == 'a' && (c == '4' || c == '@'))
    || (plain == 'e' && c == '3')
    || (plain == 'i' && c == '1')
    || (plain == 'o' && c == '0')
    || (plain == 's' && (c == '5' || c == '$'))
    || (plain == 't' && c == '7')
  }

  /** However a text is spelled in leet, letter by letter, it folds to the same text as its plain spelling. */
  lemma LeetSpellingsFoldAlike(env: Hashing, p: string, plain: string)
    requires |env.normalize(p)| == |env.normalize(plain)|
    requires forall i :: 0 <= i < |env.normalize(p)| ==> Spells(env.normalize(p)[i], env.normalize(plain)[i])
    ensures Canonicalize(env, p) == Canonicalize(env, plain)
  {
    assert Translate(env.normalize(p)) == Translate(env.normalize(plain));
  }

  // ---------------------------------------------------------------------------
  // Shingles and signatures
  // ---------------------------------------------------------------------------

  function Gram(text: string, k: nat, i: nat): string
    requires i + k <= |text|
  {
    text[i..i + k]
  }

  /** The character k-grams of a text; a shorter non-empty text is its own single shingle. */
  function Shingles(text: string, k: nat): set<string> {
    if |text| < k then (if text != [] then {text} else {})
    else set i: nat | i <= |text| - k :: Gram(text, k, i)
  }

  lemma ShinglesEmptyIffNoText(text: string, k: nat)
    requires k > 0
    ensures Shingles(text, k) == {} <==> text == []
  {
    if |text| >= k {
      assert Gram(text, k, 0) in Shingles(text, k);
    }
  }

  /** The least value of `f` over a non-empty set. */
  ghost function Least(f: string -> nat, ss: set<string>): (v: nat)
    requires ss != {}
    ensures exists s :: s in ss && f(s) == v
    ensures forall s :: s in ss ==> v <= f(s)
  {
    var s :| s in ss;
    if ss == {s} then f(s)
    else
      assert ss - {s} != {};
      var u := Least(f, ss - {s});
      if f(s) <= u then f(s) else u
  }

  /** The signature of a text: empty without shingles, else slot `i` is the least hash under salt `i`. */
  ghost function MinhashOf(env: Hashing, text: string, k: nat, numPerm: nat): (sig: Signature)
  {
    var ss := Shingles(Canonicalize(env, text), k);
    if ss == {} then [] else seq(numPerm, i requires 0 <= i => Least(s => env.slot(i, s), ss))
  }

  /** `s` is a window of `k` characters of `c`, wherever it stands. */
  ghost predicate IsWindow(c: string, k: nat, s: string) {
    |s| == k && exists a: string, b: string :: c == a + s + b
  }

  /** What a signature is of a canonical text: each slot is the least salted hash over all its windows; a text shorter
      than a window is its own single window, and the empty text has no signature. */
  ghost predicate Summarizes(env: Hashing, c: string, k: nat, numPerm: nat, sig: Signature) {
    if c == "" && k > 0 then sig == []
    else
      && |sig| == numPerm
      && forall i :: 0 <= i < numPerm ==> IsSlot(env, c, k, i, sig[i])
  }

  ghost predicate IsSlot(env: Hashing, c: string, k: nat, i: nat, v: nat) {
    if |c| < k then v == env.slot(i, c)
    else (forall s :: IsWindow(c, k, s) ==> v <= env.slot(i, s)) && exists s :: IsWindow(c, k, s) && v == env.slot(i, s)
  }

  lemma WindowsAreShingles(c: string, k: nat, s: string)
    requires |c| >= k
    ensures s in Shingles(c, k) <==> IsWindow(c, k, s)
  {
    if i: nat :| i <= |c| - k && s == Gram(c, k, i) {
      assert c == c[..i] + s + c[i + k..];
    }
    if IsWindow(c, k, s) {
      var a, b :| c == a + s + b;
      assert s == Gram(c, k, |a|);
    }
  }

  /** The signature sees every window of the text, and is determined by them. */
  lemma SignatureIsSummary(env: Hashing, text: string, k: nat, numPerm: nat, sig: Signature)
    ensures Summarizes(env, Canonicalize(env, text), k, numPerm, sig) <==> sig == MinhashOf(env, text, k, numPerm)
  {
    var c, minhash := Canonicalize(env, text), MinhashOf(env, text, k, numPerm);
    if k > 0 {
      ShinglesEmptyIffNoText(c, k);
    } else {
      assert Gram(c, k, 0) in Shingles(c, k);
    }
    if c != "" || k == 0 {
      forall i | 0 <= i < numPerm
        ensures IsSlot(env, c, k, i, minhash[i])
      {
        SlotIsLeast(env, c, k, i);
      }
      if Summarizes(env, c, k, numPerm, sig) {
        forall i | 0 <= i < numPerm
          ensures sig[i] == minhash[i]
        {
        }
      }
    }
  }

  lemma SlotIsLeast(env: Hashing, c: string, k: nat, i: nat)
    requires Shingles(c, k) != {}
    ensures IsSlot(env, c, k, i, Least(s => env.slot(i, s), Shingles(c, k)))
  {
    var least := Least(s => env.slot(i, s), Shingles(c, k));
    if |c| >= k {
      forall s
        ensures s in Shingles(c, k) <==> IsWindow(c, k, s)
      {
        WindowsAreShingles(c, k, s);
      }
      var s :| s in Shingles(c, k) && env.slot(i, s) == least;
    }
  }

  method MinOverShingles(env: Hashing, salt: nat, shingles: set<string>) returns (least: nat)
    requires shingles != {}
    ensures least == Least(s => env.slot(salt, s), shingles)
  {
    var first :| first in shingles;
    least := env.slot(salt, first);
    var rest := shingles - {first};
    while rest != {}
      invariant rest <= shingles
      invariant exists s :: s in shingles && env.slot(salt, s) == least
      invariant forall s :: s in shingles - rest ==> least <= env.slot(salt, s)
      decreases rest
    {
      var s :| s in rest;
      if env.slot(salt, s) < least {
        least := env.slot(salt, s);
      }
      rest := rest - {s};
    }
  }

  method ComputeMinhash(env: Hashing, text: string, k: nat := SHINGLE_K, numPerm: nat := NUM_PERM)
    returns (sig: Signature)
    ensures sig == MinhashOf(env, text, k, numPerm)
    ensures Summarizes(env, Canonicalize(env, text), k, numPerm, sig)
  {
    SignatureIsSummary(env, text, k, numPerm, MinhashOf(env, text, k, numPerm));
    var shingles := Shingles(Canonicalize(env, text), k);
    if shingles == {} {
      return [];
    }
    sig := [];
    for i := 0 to numPerm
      invariant |sig| == i
      invariant forall j :: 0 <= j < i ==> sig[j] == MinhashOf(env, text, k, numPerm)[j]
    {
      var least := MinOverShingles(env, i, shingles);
      sig := sig + [least];
    }
  }

  // ---------------------------------------------------------------------------
  // Similarity
  // ---------------------------------------------------------------------------

  /** The number of slots on which two signatures of the same length agree. */
  function Agree(a: Signature, b: Signature): (n: nat)
    requires |a| == |b|
    ensures n <= |a|
  {
    if a == [] then 0
    else Agree(a[..|a| - 1], b[..|b| - 1]) + if a[|a| - 1] == b[|b| - 1] then 1 else 0
  }

  function Jaccard(a: Signature, b: Signature): real {
    if a == [] || b == [] || |a| != |b| then 0.0 else Agree(a, b) as real / |a| as real
  }

  lemma {:induction false} AgreeConcat(a: Signature, b: Signature, a': Signature, b': Signature)
    requires |a| == |b| && |a'| == |b'|
    ensures Agree(a + a', b + b') == Agree(a, b) + Agree(a', b')
  {
    if a' == [] {
      assert a + a' == a && b + b' == b;
    } else {
      var n := |a'| - 1;
      assert (a + a')[..|a + a'| - 1] == a + a'[..n];
      assert (b + b')[..|b + b'| - 1] == b + b'[..n];
      AgreeConcat(a, b, a'[..n], b'[..n]);
    }
  }

  lemma {:induction false} FullAgreement(a: Signature, b: Signature)
    requires |a| == |b|
    ensures Agree(a, b) == |a| <==> a == b
  {
    if a != [] {
      var n := |a| - 1;
      FullAgreement(a[..n], b[..n]);
      assert a == a[..n] + [a[n]] && b == b[..n] + [b[n]];
    }
  }

  /** The estimate is a proportion, and it is 1 for identical non-empty signatures only. */
  lemma JaccardBounds(a: Signature, b: Signature)
    ensures 0.0 <= Jaccard(a, b) <= 1.0
    ensures Jaccard(a, b) == 1.0 <==> a == b && a != []
  {
    if |a| == |b| && a != [] {
      FullAgreement(a, b);
      var g, n := Agree(a, b) as real, |a| as real;
      QuotientAtLeast(g, n, 0.0);
      QuotientAtLeast(g, n, 1.0);
      QuotientAtMost(g, n, 1.0);
    }
  }
}
