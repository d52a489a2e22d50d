/**
 The deterministic keys: normalised parts joined by ':'. The normalisation is
 shared by the submit, mutation and history contracts; text is ASCII here.

 A part keeps the words of its text, in small letters and with single dashes
 between them; since no part holds a colon, joined parts can be told apart.
 */
module Identity {
  import opened Wrappers

  predicate IsSpace(c: char) {
    c == ' ' || '\t' <= c <= '\r' || '\U{1C}' <= c <= '\U{1F}'
  }

  /** The first index from `i` on that is not white space. */
  function FirstKept(s: string, i: nat): (r: nat)
    requires i <= |s|
    ensures i <= r <= |s|
    decreases |s| - i
  {
    if i < |s| && IsSpace(s[i]) then FirstKept(s, i + 1) else i
  }

  /** The end of the text before `j`, not going below `low`. */
  function LastKept(s: string, low: nat, j: nat): (r: nat)
    requires low <= j <= |s|
    ensures low <= r <= j
  {
    if low < j && IsSpace(s[j - 1]) then LastKept(s, low, j - 1) else j
  }

  /** Python's `strip()`: the text between the outermost characters that are not white space. */
  function Strip(s: string): string {
    var low := FirstKept(s, 0);
    s[low..LastKept(s, low, |s|)]
  }

  predicate IsBlank(s: string) {
    Strip(s) == ""
  }

  predicate IsKeyChar(c: char) {
    IsLower(c) || IsDigit(c)
  }

  function LowerChar(c: char): char {
    if IsUpper(c) then (c as int + 32) as char else c
  }

  function Lower(s: string): string {
    seq(|s|, i requires 0 <= i < |s| => LowerChar(s[i]))
  }

  function DropUnkeyed(s: string): (r: string)
    ensures |r| <= |s| && (r != [] ==> IsKeyChar(r[0]))
  {
    if s != [] && !IsKeyChar(s[0]) then DropUnkeyed(s[1..]) else s
  }

  /** Each maximal run of characters outside [a-z0-9] becomes one '-'. */
  function Collapse(s: string): string
    decreases |s|
  {
    if s == [] then []
    else if IsKeyChar(s[0]) then [s[0]] + Collapse(s[1..])
    else ['-'] + Collapse(DropUnkeyed(s))
  }

  function TrimDashes(s: string): string
    decreases |s|
  {
    if s != [] && s[0] == '-' then TrimDashes(s[1..])
    else if s != [] && s[|s| - 1] == '-' then TrimDashes(s[..|s| - 1])
    else s
  }

  function KeyPart(value: string): string {
    var part := TrimDashes(Collapse(Lower(Strip(value))));
    if part == "" then "unknown" else part
  }

  /** Key characters separated by single dashes. */
  predicate IsCollapsed(s: string) {
    && (forall i | 0 <= i < |s| :: IsKeyChar(s[i]) || s[i] == '-')
    && (forall i | 0 < i < |s| :: s[i] != '-' || s[i - 1] != '-')
  }

  predicate IsSlug(s: string) {
    IsCollapsed(s) && s != "" && s[0] != '-' && s[|s| - 1] != '-'
  }

  lemma {:induction false} CollapseIsCollapsed(s: string)
    ensures IsCollapsed(Collapse(s))
    ensures s != [] && IsKeyChar(s[0]) ==> Collapse(s) != [] && Collapse(s)[0] == s[0]
    decreases |s|
  {
    if s != [] {
      if IsKeyChar(s[0]) {
        CollapseIsCollapsed(s[1..]);
      } else {
        CollapseIsCollapsed(DropUnkeyed(s));
      }
    }
  }

  lemma {:induction false} CollapsedIsFixed(s: string)
    requires IsCollapsed(s)
    ensures Collapse(s) == s
    decreases |s|
  {
    if s != [] {
      CollapsedIsFixed(s[1..]);
      if !IsKeyChar(s[0]) {
        assert DropUnkeyed(s) == s[1..] by {
          assert |s| > 1 ==> s[1] != '-' && IsKeyChar(s[1]);
          assert DropUnkeyed(s) == DropUnkeyed(s[1..]);
        }
      }
    }
  }

  lemma {:induction false} TrimmedIsSlug(s: string)
    requires IsCollapsed(s)
    ensures IsCollapsed(TrimDashes(s))
    ensures TrimDashes(s) != "" ==> IsSlug(TrimDashes(s))
    decreases |s|
  {
    if s != [] && s[0] == '-' {
      TrimmedIsSlug(s[1..]);
    } else if s != [] && s[|s| - 1] == '-' {
      TrimmedIsSlug(s[..|s| - 1]);
    }
  }

  lemma SlugIsFixed(s: string)
    requires IsSlug(s)
    ensures KeyPart(s) == s
  {
    assert Strip(s) == s;
    assert Lower(s) == s;
    CollapsedIsFixed(s);
  }

  /** Normalisation always yields a slug, so no part ever contains ':'; and it is idempotent. */
  lemma KeyPartNormalises(value: string)
    ensures IsSlug(KeyPart(value)) && ':' !in KeyPart(value)
    ensures KeyPart(KeyPart(value)) == KeyPart(value)
  {
    CollapseIsCollapsed(Lower(Strip(value)));
    TrimmedIsSlug(Collapse(Lower(Strip(value))));
    SlugIsFixed(KeyPart(value));
  }

  // ----- What the normalisation keeps

  predicate IsWordChar(c: char) {
    '0' <= c <= '9' || 'a' <= c <= 'z' || 'A' <= c <= 'Z'
  }

  /** The unbroken runs of letters and digits, in small letters. */
  function Words(s: string): (words: seq<string>)
    ensures s != [] && IsWordChar(s[0]) ==> words != []
    ensures words != [] ==> s != []
  {
    if s == [] then []
    else if !IsWordChar(s[0]) then Words(s[1..])
    else
      var c := if 'A' <= s[0] <= 'Z' then s[0] - 'A' + 'a' else s[0];
      var rest := Words(s[1..]);
      if |s| > 1 && IsWordChar(s[1]) then [[c] + rest[0]] + rest[1..] else [[c]] + rest
  }

  function Joined(words: seq<string>): string {
    if words == [] then "" else if |words| == 1 then words[0] else words[0] + "-" + Joined(words[1..])
  }

  /** A text without any word counts as the word "unknown". */
  function WordsOrUnknown(s: string): seq<string> {
    if Words(s) == [] then ["unknown"] else Words(s)
  }

  lemma {:induction false} WordsOfLower(s: string)
    ensures Words(Lower(s)) == Words(s)
  {
    if s != [] {
      assert Lower(s)[1..] == Lower(s[1..]);
      WordsOfLower(s[1..]);
    }
  }

  lemma {:induction false} WordsBeforeSeparator(s: string, c: char)
    requires !IsWordChar(c)
    ensures Words(s + [c]) == Words(s)
  {
    if s != [] {
      assert (s + [c])[1..] == s[1..] + [c];
      WordsBeforeSeparator(s[1..], c);
    }
  }

  lemma {:induction false} WordsFromFirstKept(s: string, i: nat)
    requires i <= |s|
    ensures Words(s[FirstKept(s, i)..]) == Words(s[i..])
    decreases |s| - i
  {
    if i < |s| && IsSpace(s[i]) {
      WordsFromFirstKept(s, i + 1);
      assert s[i..][1..] == s[i + 1..];
    }
  }

  lemma {:induction false} WordsToLastKept(s: string, low: nat, j: nat)
    requires low <= j <= |s|
    ensures Words(s[low..LastKept(s, low, j)]) == Words(s[low..j])
  {
    if low < j && IsSpace(s[j - 1]) {
      WordsToLastKept(s, low, j - 1);
      WordsBeforeSeparator(s[low..j - 1], s[j - 1]);
      assert s[low..j] == s[low..j - 1] + [s[j - 1]];
    }
  }

  lemma {:induction false} WordsOfStripped(s: string)
    ensures Words(Strip(s)) == Words(s)
  {
    WordsFromFirstKept(s, 0);
    WordsToLastKept(s, FirstKept(s, 0), |s|);
    assert s[0..] == s;
    assert s[FirstKept(s, 0)..|s|] == s[FirstKept(s, 0)..];
  }

  lemma {:induction false} WordsOfDropped(s: string)
    requires forall i | 0 <= i < |s| :: !IsUpper(s[i])
    ensures Words(DropUnkeyed(s)) == Words(s)
    ensures forall i | 0 <= i < |DropUnkeyed(s)| :: !IsUpper(DropUnkeyed(s)[i])
  {
    if s != [] && !IsKeyChar(s[0]) {
      assert !IsWordChar(s[0]);
      WordsOfDropped(s[1..]);
    }
  }

  /** The words with single dashes between them, and perhaps one more behind the last. */
  predicate JoinedThen(t: string, words: seq<string>) {
    t == Joined(words) || (words != [] && t == Joined(words) + "-")
  }

  lemma ALetterExtends(c: char, t: string, words: seq<string>)
    requires words != [] && JoinedThen(t, words)
    ensures JoinedThen([c] + t, [[c] + words[0]] + words[1..])
  {
    var longer := [[c] + words[0]] + words[1..];
    assert longer[1..] == words[1..];
    assert Joined(longer) == [c] + Joined(words);
  }

  lemma ALetterStarts(c: char, t: string, words: seq<string>)
    requires JoinedThen(t, words)
    ensures JoinedThen([c] + (['-'] + t), [[c]] + words)
  {
    var longer := [[c]] + words;
    assert longer[1..] == words;
    assert words != [] ==> Joined(longer) == [c] + (['-'] + Joined(words));
  }

  predicate CollapsedFrom(s: string, t: string) {
    if s != [] && !IsKeyChar(s[0]) then t != [] && t[0] == '-' && JoinedThen(t[1..], Words(s)) else JoinedThen(t, Words(s))
  }

  lemma {:induction false} SeparatorsCollapse(s: string)
    requires s != [] && !IsKeyChar(s[0]) && forall i | 0 <= i < |s| :: !IsUpper(s[i])
    requires CollapsedFrom(DropUnkeyed(s), Collapse(DropUnkeyed(s)))
    ensures CollapsedFrom(s, Collapse(s))
  {
    WordsOfDropped(s);
    assert Collapse(s)[1..] == Collapse(DropUnkeyed(s));
  }

  lemma {:induction false} LettersCollapse(s: string)
    requires s != [] && IsKeyChar(s[0]) && forall i | 0 <= i < |s| :: !IsUpper(s[i])
    requires CollapsedFrom(s[1..], Collapse(s[1..]))
    ensures CollapsedFrom(s, Collapse(s))
  {
    var t, words := Collapse(s[1..]), Words(s[1..]);
    if |s| == 1 {
      assert Collapse(s) == [s[0]] && Words(s) == [[s[0]]];
    } else if IsKeyChar(s[1]) {
      ALetterExtends(s[0], t, words);
    } else {
      ALetterStarts(s[0], t[1..], words);
      assert t == ['-'] + t[1..];
    }
  }

  lemma {:induction false} CollapseJoins(s: string)
    requires forall i | 0 <= i < |s| :: !IsUpper(s[i])
    ensures CollapsedFrom(s, Collapse(s))
    decreases |s|
  {
    if s == [] {
    } else if !IsKeyChar(s[0]) {
      WordsOfDropped(s);
      CollapseJoins(DropUnkeyed(s));
      SeparatorsCollapse(s);
    } else {
      CollapseJoins(s[1..]);
      LettersCollapse(s);
    }
  }

  predicate AreWords(words: seq<string>) {
    forall i | 0 <= i < |words| :: words[i] != "" && forall c | c in words[i] :: IsKeyChar(c)
  }

  lemma {:induction false} WordsAreWords(s: string)
    ensures AreWords(Words(s))
  {
    if s != [] {
      WordsAreWords(s[1..]);
    }
  }

  /** The words of joined words are those words. */
  lemma {:induction false} WordsOfJoined(words: seq<string>)
    requires AreWords(words)
    ensures Words(Joined(words)) == words
  {
    if words != [] {
      WordsOfJoined(words[1..]);
      assert words == [words[0]] + words[1..];
      if |words| == 1 {
        WordsAfterWord(words[0], "");
        assert words[0] + "" == words[0];
      } else {
        WordsAfterWord(words[0], "-" + Joined(words[1..]));
        assert words[0] + ("-" + Joined(words[1..])) == Joined(words);
        assert ("-" + Joined(words[1..]))[1..] == Joined(words[1..]);
      }
    }
  }

  lemma {:induction false} WordsAfterWord(word: string, more: string)
    requires word != "" && (forall c | c in word :: IsKeyChar(c)) && (more != "" ==> !IsWordChar(more[0]))
    ensures Words(word + more) == [word] + Words(more)
  {
    var s := word + more;
    assert s[0] in word;
    if |word| == 1 {
      assert s[1..] == more && [s[0]] == word;
    } else {
      assert s[1..] == word[1..] + more && word == [word[0]] + word[1..];
      assert word[1] in word;
      WordsAfterWord(word[1..], more);
    }
  }

  lemma {:induction false} JoinedEndsAreKept(words: seq<string>)
    requires AreWords(words) && words != []
    ensures var t := Joined(words); t != "" && t[0] != '-' && t[|t| - 1] != '-'
  {
    assert words[0][0] in words[0] && words[0][|words[0]| - 1] in words[0];
    if |words| > 1 {
      JoinedEndsAreKept(words[1..]);
    }
  }

  lemma {:induction false} DashesAreTrimmed(t: string)
    requires t != "" ==> t[0] != '-' && t[|t| - 1] != '-'
    ensures TrimDashes(t) == TrimDashes("-" + t) == t
    ensures t != "" ==> TrimDashes(t + "-") == TrimDashes("-" + t + "-") == t
  {
    assert ("-" + t)[1..] == t && (t + "-")[..|t|] == t && ("-" + t + "-")[1..] == t + "-";
  }

  /** A key part is exactly the words of its text, in small letters, with single dashes between them. */
  lemma KeyPartJoinsWords(value: string)
    ensures KeyPart(value) == Joined(WordsOrUnknown(value))
    ensures Words(KeyPart(value)) == WordsOrUnknown(value)
  {
    var t, words := Lower(Strip(value)), Words(value);
    WordsOfLower(Strip(value));
    WordsOfStripped(value);
    WordsAreWords(value);
    CollapseJoins(t);
    if words != [] {
      JoinedEndsAreKept(words);
    }
    DashesAreTrimmed(Joined(words));
    if t != [] && !IsKeyChar(t[0]) {
      assert Collapse(t) == "-" + Collapse(t)[1..];
      assert "-" + (Joined(words) + "-") == "-" + Joined(words) + "-";
    }
    WordsOfJoined(WordsOrUnknown(value));
  }

  /** Two texts get the same key part exactly when they have the same words; a text without any counts as "unknown". */
  lemma KeyPartIsExact(a: string, b: string)
    ensures KeyPart(a) == KeyPart(b) <==> WordsOrUnknown(a) == WordsOrUnknown(b)
  {
    KeyPartJoinsWords(a);
    KeyPartJoinsWords(b);
  }

  lemma {:induction false} KeptFrom(s: string, i: nat)
    requires i <= |s|
    ensures forall k | i <= k < FirstKept(s, i) :: IsSpace(s[k])
    ensures FirstKept(s, i) < |s| ==> !IsSpace(s[FirstKept(s, i)])
    decreases |s| - i
  {
    if i < |s| && IsSpace(s[i]) {
      KeptFrom(s, i + 1);
    }
  }

  lemma {:induction false} KeptTo(s: string, low: nat, j: nat)
    requires low <= j <= |s|
    ensures forall k | LastKept(s, low, j) <= k < j :: IsSpace(s[k])
    ensures low < LastKept(s, low, j) ==> !IsSpace(s[LastKept(s, low, j) - 1])
  {
    if low < j && IsSpace(s[j - 1]) {
      KeptTo(s, low, j - 1);
    }
  }

  predicate IsWhite(c: char) {
    var code := c as int;
    9 <= code <= 13 || 28 <= code <= 32
  }

  /** Stripping takes white space off both ends and nothing else. */
  lemma StripIsExact(s: string) returns (before: string, after: string)
    ensures s == before + Strip(s) + after
    ensures (forall c | c in before :: IsWhite(c)) && (forall c | c in after :: IsWhite(c))
    ensures Strip(s) != "" ==> !IsWhite(Strip(s)[0]) && !IsWhite(Strip(s)[|Strip(s)| - 1])
  {
    var low := FirstKept(s, 0);
    var high := LastKept(s, low, |s|);
    before, after := s[..low], s[high..];
    KeptFrom(s, 0);
    KeptTo(s, low, |s|);
    assert s == before + s[low..high] + after;
    forall c | c in before
      ensures IsWhite(c)
    {
      var k :| 0 <= k < low && s[k] == c;
    }
    forall c | c in after
      ensures IsWhite(c)
    {
      var k :| high <= k < |s| && s[k] == c;
    }
  }

  /** A text is blank exactly when it is all white space. */
  lemma BlankIff(s: string)
    ensures IsBlank(s) <==> forall c | c in s :: IsWhite(c)
  {
    var before, after := StripIsExact(s);
    if IsBlank(s) {
      assert s == before + after;
    } else {
      assert s[|before|] == Strip(s)[0] && s[|before|] in s;
    }
  }

  lemma TrimmedIsStripped(s: string)
    requires s != "" && !IsSpace(s[0]) && !IsSpace(s[|s| - 1])
    ensures Strip(s) == s
  {
  }

  /** A space after a trimmed text is all that stripping takes off again. */
  lemma TrailingSpaceIsStripped(t: string)
    requires t != "" && Strip(t) == t
    ensures Strip(t + " ") == t && t + " " != t
  {
    var n, padded := |t|, t + " ";
    assert FirstKept(t, 0) == 0 && LastKept(t, 0, n) == n;
    assert !IsSpace(t[0]) && !IsSpace(t[n - 1]);
    assert padded[0] == t[0] && padded[n - 1] == t[n - 1] && padded[n] == ' ';
    assert LastKept(padded, 0, n + 1) == LastKept(padded, 0, n) == n;
    assert padded[..n] == t && |padded| == n + 1;
  }

  lemma PresentIfFirstKept(s: string)
    requires s != "" && !IsSpace(s[0])
    ensures !IsBlank(s)
  {
    LastKeptIsPast(s, |s|);
  }

  lemma {:induction false} LastKeptIsPast(s: string, j: nat)
    requires 0 < j <= |s| && !IsSpace(s[0])
    ensures LastKept(s, 0, j) > 0
  {
    if j > 1 {
      LastKeptIsPast(s, j - 1);
    }
  }

  /** A key that starts and ends with a slug is not blank. */
  lemma SlugEndsArePresent(first: string, middle: string, last: string)
    requires IsSlug(first) && IsSlug(last)
    ensures !IsBlank(first + middle + last)
  {
    var s := first + middle + last;
    assert s[0] == first[0] && s[|s| - 1] == last[|last| - 1];
    TrimmedIsStripped(s);
  }

  // ----- Joining parts

  lemma FirstPartDetermined(a: string, x: string, b: string, y: string)
    requires ':' !in a && ':' !in b
    requires a + ":" + x == b + ":" + y
    ensures a == b && x == y
  {
    var s := a + ":" + x;
    assert s[|a|] == ':' && s[|b|] == ':';
    assert forall i | 0 <= i < |a| :: s[i] == a[i] && a[i] in a;
    assert forall i | 0 <= i < |b| :: s[i] == b[i] && b[i] in b;
    assert |a| == |b|;
    assert a == s[..|a|] && b == s[..|b|];
    assert x == s[|a| + 1..] && y == s[|b| + 1..];
  }

  lemma LastPartDetermined(x: string, a: string, y: string, b: string)
    requires ':' !in a && ':' !in b
    requires x + ":" + a == y + ":" + b
    ensures a == b && x == y
  {
    LastPartStartsAt(x, a, y, b);
    LastPartStartsAt(y, b, x, a);
    var s := x + ":" + a;
    assert x == s[..|x|] && y == s[..|y|];
    assert a == s[|x| + 1..] && b == s[|y| + 1..];
  }

  /** The colon before `b` cannot lie inside `a`. */
  lemma LastPartStartsAt(x: string, a: string, y: string, b: string)
    requires ':' !in a && x + ":" + a == y + ":" + b
    ensures |y| <= |x|
  {
    var s := x + ":" + a;
    forall k | |x| < k < |s|
      ensures s[k] != ':'
    {
      assert s[k] == a[k - |x| - 1] && s[k] in a;
    }
    assert (y + ":" + b)[|y|] == ':';
  }

  // ----- Submit and validation identities

  predicate AllPresent(a: string, b: string, c: string) {
    !IsBlank(a) && !IsBlank(b) && !IsBlank(c)
  }

  /** None stands for the ValueError of a blank component. */
  function SubmitIdentity(opportunity: string, requisition: string, profile: string): Option<string> {
    if AllPresent(opportunity, requisition, profile) then
      Some("submit:" + (KeyPart(opportunity) + ":" + (KeyPart(requisition) + ":" + KeyPart(profile))))
    else None
  }

  function ValidationIdentity(execution: string, fingerprint: string, policyVersion: string): Option<string> {
    if AllPresent(execution, fingerprint, policyVersion) then
      Some("submitval:" + (KeyPart(execution) + ":" + (KeyPart(fingerprint) + ":" + KeyPart(policyVersion))))
    else None
  }

  lemma SubmitIdentityIsPresent(opportunity: string, requisition: string, profile: string)
    requires AllPresent(opportunity, requisition, profile)
    ensures SubmitIdentity(opportunity, requisition, profile).Some?
    ensures SubmitIdentity(opportunity, requisition, profile).value != ""
  {
    assert SubmitIdentity(opportunity, requisition, profile).value[0] == 's';
  }

  lemma ThreePartsDetermined(prefix: string, a1: string, a2: string, a3: string, b1: string, b2: string, b3: string)
    requires ':' !in a1 && ':' !in a2 && ':' !in b1 && ':' !in b2
    ensures prefix + (a1 + ":" + (a2 + ":" + a3)) == prefix + (b1 + ":" + (b2 + ":" + b3)) <==>
            a1 == b1 && a2 == b2 && a3 == b3
  {
    var a := a1 + ":" + (a2 + ":" + a3);
    var b := b1 + ":" + (b2 + ":" + b3);
    if prefix + a == prefix + b {
      assert a == (prefix + a)[|prefix|..] && b == (prefix + b)[|prefix|..];
      FirstPartDetermined(a1, a2 + ":" + a3, b1, b2 + ":" + b3);
      FirstPartDetermined(a2, a3, b2, b3);
    }
  }

  /** Two submissions share their key exactly when the three normalised parts agree. */
  lemma SubmitIdentityIsExact(o1: string, r1: string, p1: string, o2: string, r2: string, p2: string)
    requires AllPresent(o1, r1, p1) && AllPresent(o2, r2, p2)
    ensures SubmitIdentity(o1, r1, p1) == SubmitIdentity(o2, r2, p2) <==>
            KeyPart(o1) == KeyPart(o2) && KeyPart(r1) == KeyPart(r2) && KeyPart(p1) == KeyPart(p2)
  {
    KeyPartNormalises(o1);
    KeyPartNormalises(o2);
    KeyPartNormalises(r1);
    KeyPartNormalises(r2);
    ThreePartsDetermined("submit:", KeyPart(o1), KeyPart(r1), KeyPart(p1), KeyPart(o2), KeyPart(r2), KeyPart(p2));
  }

  predicate Visible(s: string) {
    exists c :: c in s && !IsWhite(c)
  }

  lemma AllPresentIff(a: string, b: string, c: string)
    ensures AllPresent(a, b, c) <==> Visible(a) && Visible(b) && Visible(c)
  {
    BlankIff(a);
    BlankIff(b);
    BlankIff(c);
  }

  /** Both identities, spelled out: given exactly for three visible parts, whose words follow the prefix. */
  lemma IdentitiesSpellWords(a: string, b: string, c: string)
    ensures SubmitIdentity(a, b, c).Some? <==> Visible(a) && Visible(b) && Visible(c)
    ensures ValidationIdentity(a, b, c).Some? <==> Visible(a) && Visible(b) && Visible(c)
    ensures Visible(a) && Visible(b) && Visible(c) ==>
              var parts := Joined(WordsOrUnknown(a)) + ":" + (Joined(WordsOrUnknown(b)) + ":" + Joined(WordsOrUnknown(c)));
              SubmitIdentity(a, b, c) == Some("submit:" + parts) && ValidationIdentity(a, b, c) == Some("submitval:" + parts)
  {
    AllPresentIff(a, b, c);
    KeyPartJoinsWords(a);
    KeyPartJoinsWords(b);
    KeyPartJoinsWords(c);
  }

  // ----- Decimal numerals

  function DigitOf(d: nat): char
    requires d < 10
  {
    "0123456789"[d]
  }

  function Decimal(n: nat): string {
    if n < 10 then [DigitOf(n)] else Decimal(n / 10) + [DigitOf(n % 10)]
  }

  lemma {:induction false} DecimalIsDigits(n: nat)
    ensures Decimal(n) != "" && forall i | 0 <= i < |Decimal(n)| :: IsDigit(Decimal(n)[i])
  {
    if n >= 10 {
      DecimalIsDigits(n / 10);
    }
  }

  lemma DigitsDiffer(d: nat, e: nat)
    requires d < 10 && e < 10 && DigitOf(d) == DigitOf(e)
    ensures d == e
  {
  }

  lemma {:induction false} DecimalIsInjective(m: nat, n: nat)
    requires Decimal(m) == Decimal(n)
    ensures m == n
  {
    DecimalIsDigits(m / 10);
    DecimalIsDigits(n / 10);
    if m < 10 && n < 10 {
      assert Decimal(m)[0] == Decimal(n)[0];
      DigitsDiffer(m, n);
    } else {
      assert |Decimal(m)| == |Decimal(n)|;
      assert m >= 10 <==> n >= 10;
      var last := |Decimal(m)| - 1;
      assert Decimal(m)[last] == Decimal(n)[last];
      DigitsDiffer(m % 10, n % 10);
      assert Decimal(m)[..last] == Decimal(m / 10);
      assert Decimal(n)[..last] == Decimal(n / 10);
      DecimalIsInjective(m / 10, n / 10);
    }
  }
}
