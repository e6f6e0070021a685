/** The fixed data of the Mirandese phonemizer: the grapheme table, the two
    character classes used by the context rules, the punctuation and
    whitespace characters kept verbatim, and the per-character lowercasing
    used for table lookups. */
module Alphabet {

  /** The grapheme table: an orthographic unit (one or two letters) to its
      ordered candidate phonemes, candidate 0 being the default realization.
      A string that is not a unit of the table has no candidates. */
  function Candidates(g: string): (cs: seq<string>)
    ensures cs != [] ==> |g| == 1 || |g| == 2
  {
    if |g| == 1 then Monograph(g[0])
    else if |g| == 2 then Digraph(g[0], g[1])
    else []
  }

  /** The one-letter units of the table. The `h` entry is the one empty
      phoneme: `h` on its own is silent. */
  function Monograph(c: char): (cs: seq<string>)
    ensures cs != [] ==> IsKeyLetter(c)
  {
    match c
    case 'a' => ["a", "ä", "ɐ"]
    case 'á' => ["ɐ̃", "a"]
    case 'b' => ["b", "β"]
    case 'c' => ["k", "s̻", "s", "z"]
    case 'ç' => ["z̻"]
    case 'd' => ["d", "ð"]
    case 'e' => ["e", "ɛ", "ɨ", "ɨ̃"]
    case 'é' => ["ɛ"]
    case 'f' => ["f"]
    case 'g' => ["g", "ɣ", "ʒ", "ɡu", "gu̯"]
    case 'h' => [""]
    case 'i' => ["i", "j"]
    case 'í' => ["i"]
    case 'j' => ["ʒ"]
    case 'k' => ["k"]
    case 'l' => ["l", "ʎ", "ɫ"]
    case 'm' => ["m", "~"]
    case 'n' => ["n", "ŋ", "~"]
    case 'o' => ["ɔ", "o", "u", "ʊ"]
    case 'ó' => ["ɔ"]
    case 'p' => ["p"]
    case 'q' => ["k"]
    case 'r' => ["ɾ", "r", "rr"]
    case 's' => ["s̺", "z̺"]
    case 't' => ["t"]
    case 'u' => ["u", "w", "ũ"]
    case 'ú' => ["u"]
    case 'ũ' => ["ũ"]
    case 'v' => ["b", "v"]
    case 'w' => ["w", "b", "β"]
    case 'x' => ["ʃ"]
    case 'y' => ["j"]
    case 'z' => ["z"]
    case _ => []
  }

  /** The two-letter units of the table. */
  function Digraph(c: char, d: char): (cs: seq<string>)
    ensures cs != [] ==> IsKeyLetter(c) && IsKeyLetter(d) && Monograph(c) != []
  {
    match c
    case 'a' => (match d case 'i' => ["aj"] case 'n' => ["ɐ̃ŋ"] case _ => [])
    case 'c' => (match d case 'h' => ["tʃ"] case _ => [])
    case 'e' => (match d case 'n' => ["ẽŋ", "ɨ̃"] case 'i' => ["ej"] case 'u' => ["ew"] case _ => [])
    case 'é' => (match d case 'u' => ["ɛw"] case _ => [])
    case 'g' => (match d case 'u' => ["g", "gu", "ɣ"] case _ => [])
    case 'i' => (match d case 'n' => ["ĩŋ", "ɨ̃j̃"] case 'a' => ["ja"] case 'ê' => ["je", "jê"] case 'u' => ["iw"] case _ => [])
    case 'l' => (match d case 'h' => ["ʎ"] case _ => [])
    case 'n' => (match d case 'h' => ["ɲ"] case _ => [])
    case 'o' => (match d case 'n' => ["õŋ"] case 'i' => ["oj"] case 'u' => ["ow"] case _ => [])
    case 'ó' => (match d case 'i' => ["ɔj"] case _ => [])
    case 'q' => (match d case 'u' => ["k", "kṷ"] case _ => [])
    case 'r' => (match d case 'r' => ["r"] case _ => [])
    case 's' => (match d case 's' => ["s̺"] case _ => [])
    case 'u' => (match d case 'n' => ["ũŋ", "ʊ̃ŋ"] case 'a' => ["wa"] case 'i' => ["uj"] case 'o' => ["wo", "u"] case _ => [])
    case _ => []
  }

  /** `g` is a key of the grapheme table (every key has a candidate). */
  predicate IsKey(g: string) {
    Candidates(g) != []
  }

  /** The lengths of the table's keys, longest first: the order in which the
      word engine tries them at each position. */
  const KeyLengths: seq<nat> := [2, 1]

  /** Characters that count as vowels in the context rules. */
  const Vowels: string := "aeiouáéíóúäɐɛɨɪɔʊ"

  /** Characters that count as voiced consonants in the context rules. */
  const VoicedConsonants: string := "bdgjlmnrvz"

  /** ASCII punctuation, in code-point order: the four runs between the
      digits, the upper-case and the lower-case letters. */
  const Punctuation: string := "!\"#$%&'()*+,-./" + ":;<=>?@" + "[\\]^_`" + "{|}~"

  /** ASCII whitespace: space, tab, line feed, carriage return, vertical tab
      and form feed. */
  const Whitespace: string := " \t\n\r\U{B}\U{C}"

  /** The characters an unmatched position keeps verbatim. */
  const PunctuationAndWhitespace: string := Punctuation + Whitespace

  /** The raw character (no lowercasing) is one of `Vowels`. */
  predicate IsVowel(c: char) {
    match c
    case 'a' | 'e' | 'i' | 'o' | 'u' | 'á' | 'é' | 'í' | 'ó' | 'ú' | 'ä' | 'ɐ' | 'ɛ' | 'ɨ' | 'ɪ' | 'ɔ' | 'ʊ' => true
    case _ => false
  }

  /** The raw character (no lowercasing) is one of `VoicedConsonants`. */
  predicate IsVoicedConsonant(c: char) {
    match c
    case 'b' | 'd' | 'g' | 'j' | 'l' | 'm' | 'n' | 'r' | 'v' | 'z' => true
    case _ => false
  }

  /** The raw character is one of `PunctuationAndWhitespace`. */
  predicate IsKept(c: char) {
    ('!' <= c <= '/') || (':' <= c <= '@') || ('[' <= c <= '`') || ('{' <= c <= '~')
    || c == ' ' || ('\t' <= c <= '\r')
  }

  /** The letters that occur in the table's keys. */
  predicate IsKeyLetter(c: char) {
    ('a' <= c <= 'z') || c == 'á' || c == 'ç' || c == 'é' || c == 'ê' || c == 'í' || c == 'ó' || c == 'ú' || c == 'ũ'
  }

  /** Lowercasing of one character. It maps A-Z, the upper-case letters of
      Latin-1, U+0168 and the Kelvin sign to their lower-case forms and leaves
      every other character as it is. */
  function Lower(c: char): (d: char)
    ensures IsKeyLetter(c) ==> d == c
    ensures 'A' <= c <= 'Z' ==> d as int == c as int + 32
    ensures ('\U{C0}' <= c <= '\U{DE}' && c != '\U{D7}') ==> d as int == c as int + 32
    ensures c == '\U{168}' ==> d == '\U{169}'
    ensures c == '\U{212A}' ==> d == 'k'
  {
    if 'A' <= c <= 'Z' || ('\U{C0}' <= c <= '\U{DE}' && c != '\U{D7}') then
      (c as int + 32) as char
    else if c == '\U{168}' then '\U{169}'
    else if c == '\U{212A}' then 'k'
    else c
  }

  /** Lowercasing of a string, one character at a time. */
  function LowerString(s: string): (t: string)
    ensures |t| == |s|
    ensures forall k :: 0 <= k < |s| ==> t[k] == Lower(s[k])
  {
    if s == [] then [] else [Lower(s[0])] + LowerString(s[1..])
  }

  /** Lowercasing reaches a key letter only from that letter itself, from
      its upper-case form, or (for `k`) from the Kelvin sign: a lookup
      ignores case and nothing else. */
  lemma KeyLetterFromCase(c: char)
    requires IsKeyLetter(Lower(c))
    ensures var d := Lower(c);
            || c == d
            || (d != '\U{169}' && c as int == d as int - 32)
            || (d == '\U{169}' && c == '\U{168}')
            || (d == 'k' && c == '\U{212A}')
  {
  }

  /** Every key is one or two characters long, so trying the lengths of
      `KeyLengths` in order tries every key that can start at a position. */
  lemma KeyLengthsCoverTable()
    ensures forall g :: IsKey(g) ==> |g| in KeyLengths
  {
    forall g | IsKey(g) ensures |g| in KeyLengths {
      assert |g| == 1 || |g| == 2;
      assert KeyLengths[0] == 2 && KeyLengths[1] == 1;
    }
  }

  /** Every key is spelled with lower-case letters only. */
  lemma KeysAreLetters()
    ensures forall g, k :: IsKey(g) && 0 <= k < |g| ==> IsKeyLetter(g[k])
  {
  }

  /** The first letter of every two-letter key is itself a key. */
  lemma DigraphHeadsAreKeys()
    ensures forall g :: IsKey(g) && |g| == 2 ==> IsKey([g[0]])
  {
  }

  /** `IsVowel` is membership in `Vowels`. */
  lemma VowelsAsListed(c: char)
    ensures IsVowel(c) <==> c in Vowels
  {
    if c in Vowels {
      var k :| 0 <= k < |Vowels| && Vowels[k] == c;
    }
  }

  /** `IsVoicedConsonant` is membership in `VoicedConsonants`. */
  lemma VoicedConsonantsAsListed(c: char)
    ensures IsVoicedConsonant(c) <==> c in VoicedConsonants
  {
    if c in VoicedConsonants {
      var k :| 0 <= k < |VoicedConsonants| && VoicedConsonants[k] == c;
    }
  }

  /** `IsKept` is membership in `PunctuationAndWhitespace`. */
  lemma KeptAsListed(c: char)
    ensures IsKept(c) <==> c in PunctuationAndWhitespace
  {
    if c in PunctuationAndWhitespace {
      var k :| 0 <= k < |PunctuationAndWhitespace| && PunctuationAndWhitespace[k] == c;
    }
  }

  /** Only key letters start units of the table. */
  lemma NonLetterStartsNoUnit(c: char)
    requires !IsKeyLetter(c)
    ensures !IsKey([c])
  {
    assert Candidates([c]) == Monograph(c);
  }

  /** A punctuation or whitespace character is its own lower case and
      starts no unit of the table. */
  lemma PunctuationStartsNoUnit(c: char)
    requires IsKept(c)
    ensures Lower(c) == c && !IsKey([c])
  {
    NonLetterStartsNoUnit(c);
  }

  /** An upper-case ASCII letter is in neither character class: the classes
      are tested on the raw character. */
  lemma UpperCaseInNoClass(c: char)
    requires 'A' <= c <= 'Z'
    ensures !IsVowel(c) && !IsVoicedConsonant(c)
  {
  }

  /** No voiced consonant is a vowel. */
  lemma VoicedConsonantsAreNotVowels(c: char)
    requires IsVoicedConsonant(c)
    ensures !IsVowel(c)
  {
  }
}
