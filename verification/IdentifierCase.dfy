/**
 The two Swift case converters of the code generator (core/bin/generate/src/remote_mappers.rs):
 `swift_case`, which keeps inner acronyms, and `uniffi_swift_case`, which lowers each word.
 */
module IdentifierCase {
  import opened Common

  predicate IsUpper(c: char) {
    'A' <= c <= 'Z'
  }

  predicate IsLower(c: char) {
    'a' <= c <= 'z'
  }

  function Lower(c: char): (r: char)
    ensures IsUpper(c) <==> r != c
    ensures IsUpper(c) ==> IsLower(r)
  {
    if IsUpper(c) then (c as int + 32) as char else c
  }

  function Upper(c: char): (r: char)
    ensures IsUpper(c) ==> r == c
  {
    if IsLower(c) then (c as int - 32) as char else c
  }

  function LowerAll(s: string): string {
    seq(|s|, i requires 0 <= i < |s| => Lower(s[i]))
  }

  // ---------------------------------------------------------------- swift_case

  /** Index of the first character that is not a capital, or the length. */
  function FirstNonUpper(s: string, from: nat): (r: nat)
    requires from <= |s|
    ensures from <= r <= |s|
    ensures forall i | from <= i < r :: IsUpper(s[i])
    ensures r < |s| ==> !IsUpper(s[r])
    decreases |s| - from
  {
    if from == |s| || !IsUpper(s[from]) then from else FirstNonUpper(s, from + 1)
  }

  /** How many leading characters `swift_case` lowers. */
  function LeadingRun(s: string): nat {
    var first := FirstNonUpper(s, 0);
    if first == |s| then |s|
    else if IsLower(s[first]) then Max(first, 2) - 1
    else first
  }

  function SwiftCase(s: string): string {
    seq(|s|, i requires 0 <= i < |s| => if i < LeadingRun(s) then Lower(s[i]) else s[i])
  }

  // ---------------------------------------------------------------- uniffi_swift_case

  /** A capital after the first character with a lower-case neighbour. */
  predicate StartsWord(s: string, i: nat)
    requires i < |s|
  {
    IsUpper(s[i]) && i > 0 && (IsLower(s[i - 1]) || (i + 1 < |s| && IsLower(s[i + 1])))
  }

  /** Every character lowered except where a new word starts. */
  function UniffiCase(s: string): string {
    seq(|s|, i requires 0 <= i < |s| => if StartsWord(s, i) then s[i] else Lower(s[i]))
  }

  function Joined(words: seq<string>): string {
    if words == [] then [] else Joined(words[..|words| - 1]) + words[|words| - 1]
  }

  /** The first word is lowered; the others get a capital first letter. */
  function RenderWord(index: nat, word: string): string {
    if index == 0 || word == [] then LowerAll(word) else [Upper(word[0])] + LowerAll(word[1..])
  }

  function Render(words: seq<string>): string {
    if words == [] then []
    else Render(words[..|words| - 1]) + RenderWord(|words| - 1, words[|words| - 1])
  }

  lemma {:induction false} SnocWord(words: seq<string>, word: string)
    ensures Joined(words + [word]) == Joined(words) + word
    ensures Render(words + [word]) == Render(words) + RenderWord(|words|, word)
  {
  }

  lemma {:induction false} GrowWord(index: nat, word: string, c: char)
    requires word != []
    ensures RenderWord(index, word + [c]) == RenderWord(index, word) + [Lower(c)]
  {
    LowerMore(word, c);
    LowerMore(word[1..], c);
    assert (word + [c])[1..] == word[1..] + [c];
  }

  lemma {:induction false} LowerMore(word: string, c: char)
    ensures LowerAll(word + [c]) == LowerAll(word) + [Lower(c)]
  {
  }

  /** What the loop knows after `i` characters: the finished words and the open one. */
  ghost predicate Progress(s: string, i: nat, words: seq<string>, word: string) {
    && i <= |s|
    && (word == [] <==> i == 0)
    && (i == 0 ==> words == [])
    && (forall k | 0 <= k < |words| :: words[k] != [])
    && Joined(words) + word == s[..i]
    && Render(words) + RenderWord(|words|, word) == UniffiCase(s)[..i]
  }

  lemma {:induction false} Advance(s: string, i: nat)
    requires i < |s|
    ensures s[..i + 1] == s[..i] + [s[i]]
    ensures UniffiCase(s)[..i + 1] == UniffiCase(s)[..i] + [if StartsWord(s, i) then s[i] else Lower(s[i])]
  {
  }

  lemma {:induction false} Assoc(a: string, b: string, c: string)
    ensures a + b + c == a + (b + c)
  {
  }

  lemma {:induction false} OpenWord(s: string, i: nat, words: seq<string>, word: string)
    requires i < |s| && Progress(s, i, words, word) && StartsWord(s, i)
    ensures Progress(s, i + 1, words + [word], [s[i]])
  {
    Advance(s, i);
    SnocWord(words, word);
    assert RenderWord(|words| + 1, [s[i]]) == [s[i]];
  }

  lemma {:induction false} ExtendWord(s: string, i: nat, words: seq<string>, word: string)
    requires i < |s| && Progress(s, i, words, word) && !StartsWord(s, i)
    ensures Progress(s, i + 1, words, word + [s[i]])
  {
    Advance(s, i);
    Assoc(Joined(words), word, [s[i]]);
    Assoc(Render(words), RenderWord(|words|, word), [Lower(s[i])]);
    if i == 0 {
      assert RenderWord(0, [s[i]]) == [Lower(s[i])];
    } else {
      GrowWord(|words|, word, s[i]);
    }
  }

  lemma {:induction false} Finish(s: string, words: seq<string>, word: string)
    requires Progress(s, |s|, words, word)
    ensures var all := if word != [] then words + [word] else words;
      Joined(all) == s && Render(all) == UniffiCase(s)
  {
    assert s[..|s|] == s && UniffiCase(s)[..|s|] == UniffiCase(s);
    if word != [] {
      SnocWord(words, word);
    }
  }

  /** The word-splitting loop; the words partition the name and start exactly at `StartsWord`. */
  method SplitWords(s: string) returns (words: seq<string>)
    ensures Joined(words) == s
    ensures forall k | 0 <= k < |words| :: words[k] != []
    ensures Render(words) == UniffiCase(s)
  {
    words := [];
    var word: string := [];
    for i := 0 to |s|
      invariant Progress(s, i, words, word)
    {
      var c := s[i];
      if IsUpper(c) && word != [] && (IsLower(s[i - 1]) || (i + 1 < |s| && IsLower(s[i + 1]))) {
        OpenWord(s, i, words, word);
        words := words + [word];
        word := [];
      } else {
        ExtendWord(s, i, words, word);
      }
      word := word + [c];
    }
    Finish(s, words, word);
    if word != [] {
      words := words + [word];
    }
  }

  method UniffiSwiftCase(s: string) returns (r: string)
    ensures r == UniffiCase(s)
  {
    var words := SplitWords(s);
    r := Render(words);
  }

  // ---------------------------------------------------------------- laws

  /** Both converters change letter case only. */
  lemma {:induction false} OnlyCaseChanges(s: string)
    ensures LowerAll(SwiftCase(s)) == LowerAll(s)
    ensures LowerAll(UniffiCase(s)) == LowerAll(s)
  {
  }

  /** Names that differ in more than case stay different under either converter. */
  lemma {:induction false} DistinctStayDistinct(s: string, t: string)
    requires LowerAll(s) != LowerAll(t)
    ensures SwiftCase(s) != SwiftCase(t) && UniffiCase(s) != UniffiCase(t)
  {
    OnlyCaseChanges(s);
    OnlyCaseChanges(t);
  }

  predicate AllLetters(s: string) {
    forall i | 0 <= i < |s| :: IsUpper(s[i]) || IsLower(s[i])
  }

  /** A capital after the first lower-case letter with no lower-case neighbour: inside an acronym. */
  predicate InnerAcronym(s: string, i: nat)
    requires i < |s|
  {
    IsUpper(s[i]) && FirstNonUpper(s, 0) < i && !StartsWord(s, i)
  }

  lemma {:induction false} AgreeAt(s: string, i: nat)
    requires AllLetters(s) && i < |s|
    ensures SwiftCase(s)[i] == UniffiCase(s)[i] <==> !InnerAcronym(s, i)
  {
  }

  /** On letters the two spellings agree exactly when the name has no acronym after its first word begins. */
  lemma {:induction false} AgreeExactly(s: string)
    requires AllLetters(s)
    ensures SwiftCase(s) == UniffiCase(s) <==> forall i | 0 <= i < |s| :: !InnerAcronym(s, i)
  {
    forall i | 0 <= i < |s| ensures SwiftCase(s)[i] == UniffiCase(s)[i] <==> !InnerAcronym(s, i) {
      AgreeAt(s, i);
    }
    if forall i | 0 <= i < |s| :: !InnerAcronym(s, i) {
      assert SwiftCase(s) == UniffiCase(s);
    }
  }

  /** In particular they agree on every name without two adjacent capitals. */
  lemma {:induction false} AgreeWithoutAdjacentCapitals(s: string)
    requires AllLetters(s)
    requires forall i | 0 <= i < |s| - 1 :: !(IsUpper(s[i]) && IsUpper(s[i + 1]))
    ensures SwiftCase(s) == UniffiCase(s)
  {
  }

  /**
   What `swift_case` lowers: the capitals a name begins with, except, after the first, the one that a
   lower-case letter follows. Everything else stays.
   */
  lemma {:induction false} SwiftCaseAt(s: string, i: nat)
    requires i < |s|
    ensures |SwiftCase(s)| == |s|
    ensures SwiftCase(s)[i] ==
      if (forall j | 0 <= j <= i :: IsUpper(s[j])) && !(i > 0 && i + 1 < |s| && IsLower(s[i + 1]))
      then Lower(s[i]) else s[i]
  {
    var first := FirstNonUpper(s, 0);
    if i >= first {
      assert first < |s| && !IsUpper(s[first]);
    }
  }

  /** What `uniffi_swift_case` keeps: a capital after the first character with a lower-case neighbour. */
  lemma {:induction false} UniffiCaseAt(s: string, i: nat)
    requires i < |s|
    ensures |UniffiCase(s)| == |s|
    ensures UniffiCase(s)[i] ==
      if IsUpper(s[i]) && i > 0 && (IsLower(s[i - 1]) || (i + 1 < |s| && IsLower(s[i + 1])))
      then s[i] else Lower(s[i])
  {
  }

  /** The ASCII letters by number, and how their cases differ. */
  lemma {:induction false} LettersInFull(c: char)
    ensures IsUpper(c) <==> 65 <= c as int <= 90
    ensures IsLower(c) <==> 97 <= c as int <= 122
    ensures IsUpper(c) ==> Lower(c) as int == c as int + 32
    ensures IsLower(c) ==> Upper(c) as int == c as int - 32
  {
  }
}
