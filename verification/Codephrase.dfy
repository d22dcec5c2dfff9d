/** Code phrases (common/src/codephrases.rs): a 256-bit value written in base
2048, a word for each digit. The word list is any list of 2048 distinct words in
order, made of lower-case letters. */
module Codephrase {
  import opened Wrappers

  const WORDLIST_LEN := 2048
  const PHRASE_WORDS_256 := 24
  const LIMIT_256 := 0x1_0000000000000000_0000000000000000_0000000000000000_0000000000000000
  const TWO_TO_88 := 0x1_0000000000000000_000000
  const TWO_TO_44 := 0x1000_0000_0000

  // ---- Base 2048

  type Digit = d: nat | d < WORDLIST_LEN

  function Pow(k: nat): (p: nat)
    ensures p > 0
  {
    if k == 0 then 1 else WORDLIST_LEN * Pow(k - 1)
  }

  /** Most significant digit first, without leading zeros. */
  function ToDigits(n: nat): seq<Digit> {
    if n == 0 then [] else ToDigits(n / WORDLIST_LEN) + [n % WORDLIST_LEN]
  }

  function FromDigits(ds: seq<Digit>): nat {
    if |ds| == 0 then 0 else FromDigits(ds[..|ds| - 1]) * WORDLIST_LEN + ds[|ds| - 1]
  }

  lemma {:induction false} DigitsRoundTrip(n: nat)
    ensures FromDigits(ToDigits(n)) == n
  {
    if n > 0 {
      DigitsRoundTrip(n / WORDLIST_LEN);
      var ds := ToDigits(n);
      assert ds[..|ds| - 1] == ToDigits(n / WORDLIST_LEN);
    }
  }

  /** A value needs no more than `k` digits exactly when it is below 2048^k. */
  lemma {:induction false} DigitCount(n: nat, k: nat)
    ensures |ToDigits(n)| <= k <==> n < Pow(k)
  {
    if n > 0 && k > 0 {
      DigitCount(n / WORDLIST_LEN, k - 1);
    }
  }

  /** A prefix of a phrase never has a greater value than the whole. */
  lemma {:induction false} PrefixIsSmaller(ds: seq<Digit>, k: nat)
    requires k <= |ds|
    ensures FromDigits(ds[..k]) <= FromDigits(ds)
    decreases |ds|
  {
    if k == |ds| {
      assert ds[..k] == ds;
    } else {
      PrefixIsSmaller(ds[..|ds| - 1], k);
      assert ds[..|ds| - 1][..k] == ds[..k];
    }
  }

  // ---- The word list

  predicate IsLower(c: char) { 'a' <= c <= 'z' }

  predicate Before(a: string, b: string) {
    |b| > 0 && (|a| == 0 || a[0] < b[0] || (a[0] == b[0] && Before(a[1..], b[1..])))
  }

  lemma {:induction false} BeforeIsTotal(a: string, b: string)
    ensures a == b || Before(a, b) || Before(b, a)
    ensures Before(a, b) ==> !Before(b, a) && a != b
  {
    if |a| > 0 && |b| > 0 {
      BeforeIsTotal(a[1..], b[1..]);
      assert a == [a[0]] + a[1..] && b == [b[0]] + b[1..];
    }
  }

  lemma {:induction false} BeforeIsTransitive(a: string, b: string, c: string)
    requires Before(a, b) && Before(b, c)
    ensures Before(a, c)
  {
    if |a| > 0 && a[0] == b[0] && b[0] == c[0] {
      BeforeIsTransitive(a[1..], b[1..], c[1..]);
    }
  }

  ghost predicate IsWordList(list: seq<string>) {
    && |list| == WORDLIST_LEN
    && (forall i, j :: 0 <= i < j < |list| ==> Before(list[i], list[j]))
    && (forall i :: 0 <= i < |list| ==> IsWord(list[i]))
  }

  predicate IsWord(w: string) {
    |w| > 0 && forall i :: 0 <= i < |w| ==> IsLower(w[i])
  }

  /** Binary search of the word list. */
  method Index(list: seq<string>, word: string) returns (r: Option<nat>)
    requires IsWordList(list)
    ensures r.Some? ==> r.value < |list| && list[r.value] == word
    ensures r.None? ==> word !in list
  {
    var low, high := 0, |list|;
    while low < high
      invariant 0 <= low <= high <= |list|
      invariant forall i :: 0 <= i < low ==> Before(list[i], word)
      invariant forall i :: high <= i < |list| ==> Before(word, list[i])
    {
      var mid := (low + high) / 2;
      BeforeIsTotal(list[mid], word);
      if list[mid] == word {
        return Some(mid);
      } else if Before(list[mid], word) {
        forall i | 0 <= i < mid
          ensures Before(list[i], word)
        {
          BeforeIsTransitive(list[i], list[mid], word);
        }
        low := mid + 1;
      } else {
        forall i | mid < i < |list|
          ensures Before(word, list[i])
        {
          BeforeIsTransitive(word, list[mid], list[i]);
        }
        high := mid;
      }
    }
    forall i | 0 <= i < |list|
      ensures list[i] != word
    {
      BeforeIsTotal(list[i], word);
    }
    r := None;
  }

  // ---- Words from text and back

  function Lower(c: char): char {
    if 'A' <= c <= 'Z' then c - 'A' + 'a' else c
  }

  predicate IsSpace(c: char) { c == ' ' || c == '\t' || c == '\n' || c == '\r' || c == '\U{000C}' }

  /** Lower case, with every separator a space. */
  function Plain(s: string): (r: string)
    ensures |r| == |s|
  {
    seq(|s|, i requires 0 <= i < |s| => if s[i] == '-' then ' ' else Lower(s[i]))
  }

  /** The words of a text, read from its end: `word` is what has been read of the
      last one. */
  function WordsBefore(s: string, word: string): seq<string>
    decreases |s|
  {
    if |s| == 0 then if word == "" then [] else [word]
    else
      var c, rest := s[|s| - 1], s[..|s| - 1];
      if !IsSpace(c) then WordsBefore(rest, [c] + word)
      else if word == "" then WordsBefore(rest, "")
      else WordsBefore(rest, "") + [word]
  }

  function Words(s: string): seq<string> {
    WordsBefore(Plain(s), "")
  }

  function Join(words: seq<string>): string {
    if |words| == 0 then ""
    else if |words| == 1 then words[0]
    else Join(words[..|words| - 1]) + "-" + words[|words| - 1]
  }

  lemma {:induction false} ReadWord(s: string, w: string, word: string)
    requires forall i :: 0 <= i < |w| ==> !IsSpace(w[i])
    ensures WordsBefore(s + w, word) == WordsBefore(s, w + word)
    decreases |w|
  {
    if |w| == 0 {
      assert s + w == s && w + word == word;
    } else {
      var k := |w| - 1;
      assert (s + w)[..|s| + k] == s + w[..k];
      ReadWord(s, w[..k], [w[k]] + word);
      assert w[..k] + ([w[k]] + word) == w + word;
    }
  }

  lemma {:induction false} PlainOfWord(w: string)
    requires IsWord(w)
    ensures Plain(w) == w && forall i :: 0 <= i < |w| ==> !IsSpace(w[i])
  {
  }

  lemma {:induction false} PlainConcat(a: string, b: string)
    ensures Plain(a + b) == Plain(a) + Plain(b)
  {
  }

  lemma {:induction false} AppendWord(front: string, last: string)
    requires |last| > 0 && forall i :: 0 <= i < |last| ==> !IsSpace(last[i])
    ensures WordsBefore(front + " " + last, "") == WordsBefore(front, "") + [last]
  {
    ReadWord(front + " ", last, "");
    assert last + "" == last;
    assert (front + " ")[..|front|] == front;
  }

  /** A joined phrase reads as the words it was joined from. */
  lemma {:induction false} WordsOfJoin(words: seq<string>)
    requires forall i :: 0 <= i < |words| ==> IsWord(words[i])
    ensures Words(Join(words)) == words
  {
    if |words| == 1 {
      PlainOfWord(words[0]);
      ReadWord("", words[0], "");
      assert "" + words[0] == words[0] == words[0] + "";
    } else if |words| > 1 {
      var k := |words| - 1;
      var front := Join(words[..k]);
      WordsOfJoin(words[..k]);
      PlainOfWord(words[k]);
      PlainConcat(front + "-", words[k]);
      PlainConcat(front, "-");
      assert Plain("-") == " ";
      AppendWord(Plain(front), words[k]);
    }
  }

  predicate Separates(c: char) { c == '-' || IsSpace(c) }

  /** Two characters a reader takes for the same: equal, two separators, or a capital
      and its small letter. */
  predicate Alike(c: char, d: char) {
    || c == d || (Separates(c) && Separates(d))
    || ('A' <= c <= 'Z' && d as int == c as int + 32) || ('A' <= d <= 'Z' && c as int == d as int + 32)
  }

  lemma {:induction false} PlainAlike(c: char, d: char)
    requires Alike(c, d)
    ensures Plain([c])[0] == Plain([d])[0] || (IsSpace(Plain([c])[0]) && IsSpace(Plain([d])[0]))
  {
  }

  lemma {:induction false} WordsBeforeAlike(s: string, t: string, word: string)
    requires |s| == |t|
    requires forall i :: 0 <= i < |s| ==> s[i] == t[i] || (IsSpace(s[i]) && IsSpace(t[i]))
    ensures WordsBefore(s, word) == WordsBefore(t, word)
    decreases |s|
  {
    if |s| > 0 {
      var c, rest, more := s[|s| - 1], s[..|s| - 1], t[..|t| - 1];
      WordsBeforeAlike(rest, more, [c] + word);
      WordsBeforeAlike(rest, more, "");
    }
  }

  /** Case and the choice of separators do not matter to how a phrase reads. */
  lemma {:induction false} SpellingIsLiberal(s: string, t: string)
    requires |s| == |t| && forall i :: 0 <= i < |s| ==> Alike(s[i], t[i])
    ensures Words(s) == Words(t)
  {
    forall i | 0 <= i < |s|
      ensures Plain(s)[i] == Plain(t)[i] || (IsSpace(Plain(s)[i]) && IsSpace(Plain(t)[i]))
    {
      PlainAlike(s[i], t[i]);
    }
    WordsBeforeAlike(Plain(s), Plain(t), "");
  }

  // ---- Printing and parsing

  function Spell(list: seq<string>, ds: seq<Digit>): (r: seq<string>)
    requires |list| == WORDLIST_LEN
    ensures |r| == |ds| && forall i :: 0 <= i < |ds| ==> r[i] == list[ds[i]]
  {
    seq(|ds|, i requires 0 <= i < |ds| => list[ds[i]])
  }

  function Show(list: seq<string>, n: nat): string
    requires |list| == WORDLIST_LEN
  {
    Join(Spell(list, ToDigits(n)))
  }

  function Reversed(s: seq<string>): (r: seq<string>)
    ensures |r| == |s| && forall i :: 0 <= i < |s| ==> r[i] == s[|s| - 1 - i]
  {
    seq(|s|, i requires 0 <= i < |s| => s[|s| - 1 - i])
  }

  /** Divide out the digits, least significant first, and turn them around. */
  method Display(list: seq<string>, value: nat) returns (phrase: string)
    requires IsWordList(list)
    ensures phrase == Show(list, value)
  {
    var n: nat := value;
    var words: seq<string> := [];
    ghost var done: seq<Digit> := [];
    while n > 0
      invariant ToDigits(value) == ToDigits(n) + done
      invariant Reversed(words) == Spell(list, done)
    {
      var r := n % WORDLIST_LEN;
      assert ToDigits(n) == ToDigits(n / WORDLIST_LEN) + [r];
      n := n / WORDLIST_LEN;
      done := [r] + done;
      words := words + [list[r]];
    }
    words := Reversed(words);
    assert ToDigits(value) == [] + done == done;
    phrase := Join(words);
  }

  /** The words spell these digits. */
  ghost predicate Spells(list: seq<string>, words: seq<string>, ds: seq<Digit>)
    requires |list| == WORDLIST_LEN
  {
    |words| == |ds| && forall i :: 0 <= i < |words| ==> words[i] == list[ds[i]]
  }

  /** Distinct words make the digits unique. */
  lemma {:induction false} SpellsOnce(list: seq<string>, words: seq<string>, ds: seq<Digit>, es: seq<Digit>)
    requires IsWordList(list) && Spells(list, words, ds) && Spells(list, words, es)
    ensures ds == es
  {
    forall i | 0 <= i < |ds|
      ensures ds[i] == es[i]
    {
      BeforeIsTotal(list[ds[i]], list[es[i]]);
      BeforeIsTotal(list[es[i]], list[ds[i]]);
    }
  }

  /** What a phrase is worth, if anything: it has at most 24 words, all in the list,
      and they spell a number below 2^256. */
  ghost predicate Means(list: seq<string>, phrase: string, n: nat)
    requires |list| == WORDLIST_LEN
  {
    && n < LIMIT_256 && |Words(phrase)| <= PHRASE_WORDS_256
    && exists ds :: Spells(list, Words(phrase), ds) && FromDigits(ds) == n
  }

  /** However the rest of a phrase reads, a prefix over the limit is over it for
      good. */
  lemma {:induction false} Overflows(list: seq<string>, phrase: string, ds: seq<Digit>, k: nat)
    requires IsWordList(list) && k <= |Words(phrase)|
    requires Spells(list, Words(phrase)[..k], ds) && FromDigits(ds) >= LIMIT_256
    ensures forall n :: !Means(list, phrase, n)
  {
    forall n: nat
      ensures !Means(list, phrase, n)
    {
      if Means(list, phrase, n) {
        var es :| Spells(list, Words(phrase), es) && FromDigits(es) == n;
        SpellsOnce(list, Words(phrase)[..k], ds, es[..k]);
        PrefixIsSmaller(es, k);
        assert false;
      }
    }
  }

  /** Parse a phrase: it is accepted exactly when it means something, and then as
      what it means. */
  method FromStr(list: seq<string>, phrase: string) returns (r: Option<nat>)
    requires IsWordList(list)
    ensures r.Some? ==> Means(list, phrase, r.value)
    ensures r.None? ==> forall n :: !Means(list, phrase, n)
  {
    var words := Words(phrase);
    var n := 0;
    ghost var ds: seq<Digit> := [];
    for i := 0 to |words|
      invariant i <= PHRASE_WORDS_256
      invariant Spells(list, words[..i], ds) && FromDigits(ds) == n < LIMIT_256
    {
      if i + 1 > PHRASE_WORDS_256 {
        return None;
      }
      var index := Index(list, words[i]);
      if index.None? {
        return None;
      }
      var d := index.value;
      ghost var more := ds + [d];
      assert more[..|ds|] == ds;
      n := n * WORDLIST_LEN;
      if n >= LIMIT_256 || n + d >= LIMIT_256 {
        Overflows(list, phrase, more, i + 1);
        return None;
      }
      n := n + d;
      ds := more;
    }
    assert words[..|words|] == words;
    r := Some(n);
  }

  lemma {:induction false} MeansOnce(list: seq<string>, phrase: string, m: nat, n: nat)
    requires IsWordList(list) && Means(list, phrase, m) && Means(list, phrase, n)
    ensures m == n
  {
    var ds :| Spells(list, Words(phrase), ds) && FromDigits(ds) == m;
    var es :| Spells(list, Words(phrase), es) && FromDigits(es) == n;
    SpellsOnce(list, Words(phrase), ds, es);
  }

  lemma {:induction false} ShowMeans(list: seq<string>, n: nat)
    requires IsWordList(list) && n < LIMIT_256
    ensures Words(Show(list, n)) == Spell(list, ToDigits(n))
    ensures Means(list, Show(list, n), n)
  {
    WordsOfJoin(Spell(list, ToDigits(n)));
    DigitsRoundTrip(n);
    DigitCount(n, PHRASE_WORDS_256);
    WholeRange();
    assert Spells(list, Words(Show(list, n)), ToDigits(n));
  }

  lemma {:induction false} WholeRange()
    ensures Pow(PHRASE_WORDS_256 - 1) < LIMIT_256 < Pow(PHRASE_WORDS_256)
    ensures Pow(8) == TWO_TO_88 && Pow(4) == TWO_TO_44
  {
    assert Pow(12) == 2048 * 2048 * 2048 * 2048 * TWO_TO_88;
    assert Pow(16) == TWO_TO_88 * TWO_TO_88;
    assert Pow(20) == 2048 * 2048 * 2048 * 2048 * Pow(16);
    assert Pow(23) == 2048 * 2048 * 2048 * Pow(20);
    assert Pow(24) == 2048 * Pow(23);
  }

  /** Every 256-bit value prints and parses back to itself. */
  method RoundTrip(list: seq<string>, value: nat) returns (phrase: string, parsed: Option<nat>)
    requires IsWordList(list) && value < LIMIT_256
    ensures |Words(phrase)| <= PHRASE_WORDS_256
    ensures parsed == Some(value)
  {
    phrase := Display(list, value);
    ShowMeans(list, value);
    parsed := FromStr(list, phrase);
    if parsed.Some? {
      MeansOnce(list, phrase, value, parsed.value);
    }
  }

  // ---- Shorter types

  datatype Length = Full | Truncated | Short

  function Mask(n: nat, limit: nat): nat
    requires limit > 0
  {
    n % limit
  }

  /** Cut a value down to the width of its type. */
  function Canonical(length: Length, n: nat): nat {
    match length
    case Full => n
    case Truncated => Mask(n, TWO_TO_88)
    case Short => Mask(n, TWO_TO_44)
  }

  function TryFrom(length: Length, n: nat): Option<nat> {
    if Canonical(length, n) != n then None else Some(n)
  }

  function MaxWords(length: Length): nat {
    match length
    case Full => PHRASE_WORDS_256
    case Truncated => 8
    case Short => 4
  }

  /** A shorter type takes exactly the values of its width, which are those that
      print in its number of words; and whatever it is cut down from, it takes. */
  lemma {:induction false} TryFromExact(length: Length, n: nat)
    requires n < LIMIT_256
    ensures TryFrom(length, n).Some? <==> |ToDigits(n)| <= MaxWords(length)
    ensures length.Truncated? ==> (TryFrom(length, n).Some? <==> n < TWO_TO_88)
    ensures length.Short? ==> (TryFrom(length, n).Some? <==> n < TWO_TO_44)
    ensures TryFrom(length, Canonical(length, n)) == Some(Canonical(length, n))
  {
    DigitCount(n, MaxWords(length));
    WholeRange();
  }
}
