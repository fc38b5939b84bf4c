/**
  The yes/no replies of the console: a reply is stripped of surrounding
  white space and lower-cased, then compared with the Russian words for
  "yes" and "no". The calculator goes on to another operation only on
  "да"; the opening question also knows "нет" and asks again otherwise.
*/
module Replies {

  /** The characters Python's str.isspace() accepts, which str.strip() with no argument removes. */
  predicate IsSpace(c: char) {
    var n := c as int;
    || n == 0x20 || 0x09 <= n <= 0x0D || 0x1C <= n <= 0x1F || n == 0x85 || n == 0xA0
    || n == 0x1680 || 0x2000 <= n <= 0x200A || n == 0x2028 || n == 0x2029
    || n == 0x202F || n == 0x205F || n == 0x3000
  }

  /** Every character of `s` from index `lo` up to (not including) `hi` is white space. */
  predicate SpaceBetween(s: string, lo: nat, hi: nat)
    requires lo <= hi <= |s|
  {
    forall k :: lo <= k < hi ==> IsSpace(s[k])
  }

  /** Every character of the text is white space. */
  predicate AllSpace(s: string) {
    SpaceBetween(s, 0, |s|)
  }

  /** The first index at or after `i` that does not hold white space (or the length). */
  function SkipSpace(s: string, i: nat): (j: nat)
    requires i <= |s|
    ensures i <= j <= |s| && SpaceBetween(s, i, j)
    ensures j < |s| ==> !IsSpace(s[j])
    decreases |s| - i
  {
    if i < |s| && IsSpace(s[i]) then SkipSpace(s, i + 1) else i
  }

  /** The index just after the last non-white-space character between `lo` and `j` (or `lo`). */
  function SkipSpaceBack(s: string, lo: nat, j: nat): (k: nat)
    requires lo <= j <= |s|
    ensures lo <= k <= j && SpaceBetween(s, k, j)
    ensures lo < k ==> !IsSpace(s[k - 1])
  {
    if lo < j && IsSpace(s[j - 1]) then SkipSpaceBack(s, lo, j - 1) else j
  }

  /** Where the stripped text starts in the reply. */
  function StripStart(s: string): nat {
    SkipSpace(s, 0)
  }

  /** Where the stripped text ends in the reply. */
  function StripEnd(s: string): nat
    requires StripStart(s) <= |s|
  {
    SkipSpaceBack(s, StripStart(s), |s|)
  }

  /** Python's str.strip() with no argument: the text without the white space at either end. */
  function Strip(s: string): string {
    s[StripStart(s)..StripEnd(s)]
  }

  /**
    Strip cuts the reply into a white-space run, the stripped text and
    another white-space run, and the stripped text neither starts nor ends
    with white space.
  */
  lemma StripSplitsReply(s: string)
    ensures StripStart(s) <= StripEnd(s) <= |s|
    ensures s == s[..StripStart(s)] + Strip(s) + s[StripEnd(s)..]
    ensures SpaceBetween(s, 0, StripStart(s)) && SpaceBetween(s, StripEnd(s), |s|)
    ensures Strip(s) != [] ==> !IsSpace(Strip(s)[0]) && !IsSpace(Strip(s)[|Strip(s)| - 1])
  {
    var i, j := StripStart(s), StripEnd(s);
    assert s == s[..i] + s[i..j] + s[j..];
  }

  /** Stripping a word written between white space gives back the word. */
  lemma StripPadded(before: string, word: string, after: string)
    requires AllSpace(before) && AllSpace(after)
    requires word != [] && !IsSpace(word[0]) && !IsSpace(word[|word| - 1])
    ensures Strip(before + word + after) == word
  {
    var s := before + word + after;
    var i, j := |before|, |before| + |word|;
    assert s[i] == word[0];
    SkipPadded(s, 0, i);
    assert s[j - 1] == word[|word| - 1];
    SkipBackPadded(s, i, j, |s|);
    assert s[i..j] == word;
  }

  /** From any index inside a leading white-space run, SkipSpace stops where the run ends. */
  lemma {:induction false} SkipPadded(s: string, i: nat, n: nat)
    requires i <= n < |s| && SpaceBetween(s, i, n) && !IsSpace(s[n])
    ensures SkipSpace(s, i) == n
    decreases n - i
  {
    if i < n {
      SkipPadded(s, i + 1, n);
    }
  }

  /** From any index inside a trailing white-space run, SkipSpaceBack stops where the run begins. */
  lemma {:induction false} SkipBackPadded(s: string, lo: nat, n: nat, j: nat)
    requires lo < n <= j <= |s| && SpaceBetween(s, n, j) && !IsSpace(s[n - 1])
    ensures SkipSpaceBack(s, lo, j) == n
  {
    if n < j {
      SkipBackPadded(s, lo, n, j - 1);
    }
  }

  /**
    The lower-case form of a character for the Latin capitals A-Z and the
    Cyrillic capitals U+0400-U+042F; other characters are kept.
  */
  function LowerChar(c: char): char {
    var n := c as int;
    if 0x41 <= n <= 0x5A || 0x410 <= n <= 0x42F then (n + 0x20) as char
    else if 0x400 <= n <= 0x40F then (n + 0x50) as char
    else c
  }

  /** Python's str.lower(), character by character. */
  function Lower(s: string): (r: string)
    ensures |r| == |s|
    ensures forall k :: 0 <= k < |s| ==> r[k] == LowerChar(s[k])
  {
    if s == [] then [] else [LowerChar(s[0])] + Lower(s[1..])
  }

  /** A reply as the console compares it. */
  function Normalised(reply: string): string {
    Lower(Strip(reply))
  }

  /** The calculator offers another operation only when the normalised reply is "да". */
  predicate ContinueReply(reply: string) {
    Normalised(reply) == "да"
  }

  /** The characters that lower-case to the letters of "да". */
  lemma LowerToDeA(c: char)
    ensures LowerChar(c) == 'д' <==> c == 'д' || c == 'Д'
    ensures LowerChar(c) == 'а' <==> c == 'а' || c == 'А'
  {
  }

  /** The calculator continues exactly on "да" in any mix of cases, with any white space around it. */
  lemma ContinueExactly(reply: string)
    ensures ContinueReply(reply) <==>
      var t := Strip(reply);
      |t| == 2 && (t[0] == 'д' || t[0] == 'Д') && (t[1] == 'а' || t[1] == 'А')
  {
    var t := Strip(reply);
    var n := Normalised(reply);
    if |t| == 2 {
      LowerToDeA(t[0]);
      LowerToDeA(t[1]);
      assert n == [LowerChar(t[0]), LowerChar(t[1])];
      assert "да" == ['д', 'а'];
    }
  }

  /** A capitalised "да" with a space before it and a newline after it continues. */
  lemma ContinueOnPaddedYes()
    ensures ContinueReply(" Да\n")
  {
    assert AllSpace(" ") && AllSpace("\n");
    StripPadded(" ", "Да", "\n");
    assert " " + "Да" + "\n" == " Да\n";
    ContinueExactly(" Да\n");
  }

  /** "нет" does not continue. */
  lemma StopOnNo()
    ensures !ContinueReply("нет")
  {
    assert AllSpace("");
    StripPadded("", "нет", "");
    assert "" + "нет" + "" == "нет";
    ContinueExactly("нет");
  }

  /** "да" with a space between its letters does not continue: strip only works at the ends. */
  lemma StopOnSplitYes()
    ensures !ContinueReply("д а")
  {
    assert AllSpace("");
    StripPadded("", "д а", "");
    assert "" + "д а" + "" == "д а";
    ContinueExactly("д а");
  }

  /** The answer to the opening question. */
  datatype Decision = UseCalculator | Decline | AskAgain

  /** The opening question: "да" opens the calculator, "нет" ends, anything else asks again. */
  function OpeningDecision(reply: string): Decision {
    var n := Normalised(reply);
    if n == "да" then UseCalculator else if n == "нет" then Decline else AskAgain
  }

  /** The opening question and the calculator's continue question accept "yes" the same way. */
  lemma OpeningAgreesWithContinue(reply: string)
    ensures OpeningDecision(reply) == UseCalculator <==> ContinueReply(reply)
    ensures OpeningDecision(reply) == Decline ==> !ContinueReply(reply)
  {
  }

  /** The characters that lower-case to the letters of "нет". */
  lemma LowerToNet(c: char)
    ensures LowerChar(c) == 'н' <==> c == 'н' || c == 'Н'
    ensures LowerChar(c) == 'е' <==> c == 'е' || c == 'Е'
    ensures LowerChar(c) == 'т' <==> c == 'т' || c == 'Т'
  {
  }

  /**
    The opening question declines exactly on "нет" in any mix of cases, with
    any white space around it.
  */
  lemma DeclineExactly(reply: string)
    ensures OpeningDecision(reply) == Decline <==>
      var t := Strip(reply);
      && |t| == 3 && (t[0] == 'н' || t[0] == 'Н') && (t[1] == 'е' || t[1] == 'Е')
      && (t[2] == 'т' || t[2] == 'Т')
  {
    var t := Strip(reply);
    var n := Normalised(reply);
    if |t| == 3 {
      LowerToNet(t[0]);
      LowerToNet(t[1]);
      LowerToNet(t[2]);
      assert n == [LowerChar(t[0]), LowerChar(t[1]), LowerChar(t[2])];
      assert "нет" == ['н', 'е', 'т'];
    }
  }
}
