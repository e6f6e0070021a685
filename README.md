# Mirandese phonemizer, modelled in Dafny

This project models the rule-based grapheme-to-phoneme converter for
Mirandese in `mwl_phonemizer/__init__.py` and proves properties of it.

The converter has four parts, and the model keeps them:

- **The grapheme table** (`Alphabet`). It maps each one- or two-letter
  orthographic unit to an ordered list of candidate phonemes. Candidate 0 is
  the default.
- **The character classes** (`Alphabet`). These are the vowels, the voiced
  consonants, and the punctuation and whitespace characters kept verbatim.
  Each class is a predicate. A lemma proves it equal to membership in the
  source's literal string.
- **The word engine** (`Rules`, `Word`).
  - A cursor walks the word and tries the lowercased two-character window
    first, then the one-character window.
  - On a match, a per-unit context rule (`Pick`) chooses one candidate by
    looking at the neighbouring characters. The cursor then moves past the
    unit.
  - A position where no unit starts keeps its character if it is
    punctuation or whitespace and drops it otherwise.
  - `Units(w, i)` lists the pieces emitted from position `i` on.
    `Transcribe(w)` joins them.
  - `PhonemizeWord` is the imperative loop, with an inner loop (`MatchAt`)
    over the key lengths. Its result is proved equal to `Transcribe`.
- **The text driver** (`Text`). It takes the text already split into tokens.
  Alphabetic tokens go through the word engine and every other token is
  copied. The outputs are joined in order. `MirandesePhonemizer` is the
  loop, proved equal to the specification `TranscribeText`.

The model follows the code wherever the code and its comments disagree:

- `c` is [k] before `e`/`i` and [s̻] elsewhere. The comments give the
  reverse.
- `l` is [ɫ] at the start of a word and [ʎ] elsewhere. Its candidate [l] is
  never chosen. The comments say [ʎ] at the start and [l] elsewhere.
- `gu` is [g] or `gu`, never [ɣ]. The comments say [ɣ] between vowels and
  after `r`.
- `m` is silent before `p`/`b` inside a word. The table's comment says it
  is silent before nasalized front vowels.

## Model

| member | source | states |
|---|---|---|
| Alphabet.Candidates | mwl_phonemizer/__init__.py:4-66 | the grapheme table: a unit's ordered candidate phonemes, none for a string that is not a unit; every unit is one or two characters long |
| Alphabet.Monograph | mwl_phonemizer/__init__.py:4-66 | the one-letter entries of the table; only key letters have one |
| Alphabet.Digraph | mwl_phonemizer/__init__.py:4-66 | the two-letter entries of the table; both letters are key letters and the first is a one-letter unit too |
| Alphabet.IsVowel | mwl_phonemizer/__init__.py:72-73 | the vowel test on the raw character; `VowelsAsListed` ties it to the vowel string |
| Alphabet.IsVoicedConsonant | mwl_phonemizer/__init__.py:76-77 | the voiced-consonant test on the raw character; `VoicedConsonantsAsListed` ties it to the string |
| Alphabet.IsKept | mwl_phonemizer/__init__.py:217 | the punctuation-or-whitespace test of the fallback; `KeptAsListed` ties it to the string |
| Alphabet.IsKey | mwl_phonemizer/__init__.py:90 | the membership test `grapheme in` the table, used at line 90 and again at line 215: the string has candidates |
| Alphabet.KeyLengths | mwl_phonemizer/__init__.py:87 | the key lengths, longest first, in the order the inner loop tries them |
| Alphabet.Vowels | mwl_phonemizer/__init__.py:68 | the vowel string, character for character |
| Alphabet.VoicedConsonants | mwl_phonemizer/__init__.py:69 | the voiced-consonant string, character for character |
| Alphabet.PunctuationAndWhitespace | mwl_phonemizer/__init__.py:217 | ASCII punctuation followed by ASCII whitespace, the string the fallback tests against |
| Alphabet.KeyLetterFromCase | mwl_phonemizer/__init__.py:89 | a character lowercases to a key letter only if it is that letter, its upper-case form, or (for `k`) the Kelvin sign, so lookups ignore case and nothing else |
| Alphabet.KeyLengthsCoverTable | mwl_phonemizer/__init__.py:86-87 | every key of the table is one or two characters long, so trying the lengths 2 then 1 tries every key |
| Alphabet.KeysAreLetters | mwl_phonemizer/__init__.py:4-66 | every key of the table is spelled with lower-case key letters only |
| Alphabet.DigraphHeadsAreKeys | mwl_phonemizer/__init__.py:4-66 | the first letter of every two-letter key is itself a one-letter key |
| Alphabet.VowelsAsListed | mwl_phonemizer/__init__.py:68-73 | `IsVowel(c)` holds exactly when `c` occurs in the vowel string |
| Alphabet.VoicedConsonantsAsListed | mwl_phonemizer/__init__.py:69-77 | `IsVoicedConsonant(c)` holds exactly when `c` occurs in the voiced-consonant string |
| Alphabet.KeptAsListed | mwl_phonemizer/__init__.py:217 | `IsKept(c)` holds exactly when `c` occurs in ASCII punctuation followed by ASCII whitespace |
| Alphabet.Lower | mwl_phonemizer/__init__.py:89 | lowercasing leaves every key letter unchanged; it maps `A`-`Z`, the upper-case letters of Latin-1 (`Á`, `Ç`, `É`, `Ê`, `Í`, `Ó`, `Ú` among them), `Ũ` and the Kelvin sign to their lower-case forms |
| Alphabet.LowerString | mwl_phonemizer/__init__.py:89 | lowercasing a string keeps its length and lowercases each character in place |
| Alphabet.NonLetterStartsNoUnit | mwl_phonemizer/__init__.py:4-66 | a character that is not a key letter is not a one-letter key |
| Alphabet.PunctuationStartsNoUnit | mwl_phonemizer/__init__.py:217 | a punctuation or whitespace character is its own lower case and starts no unit |
| Alphabet.UpperCaseInNoClass | mwl_phonemizer/__init__.py:72-77 | an upper-case ASCII letter is neither a vowel nor a voiced consonant, because the classes test the raw character |
| Alphabet.VoicedConsonantsAreNotVowels | mwl_phonemizer/__init__.py:68-69 | the two character classes are disjoint |
| Rules.Pick | mwl_phonemizer/__init__.py:91-207 | the phoneme chosen for a matched unit is always one of that unit's candidates |
| Rules.BRule | mwl_phonemizer/__init__.py:92-99 | every candidate index the `b` rule uses is in bounds, and the result is a candidate of `b` |
| Rules.CRule | mwl_phonemizer/__init__.py:100-104 | every candidate index the `c` rule uses is in bounds, and the result is a candidate of `c` |
| Rules.DRule | mwl_phonemizer/__init__.py:114-121 | every candidate index the `d` rule uses is in bounds, and the result is a candidate of `d` |
| Rules.GRule | mwl_phonemizer/__init__.py:126-137 | every candidate index the `g` rule uses (including [2]) is in bounds, and the result is a candidate of `g` |
| Rules.GuRule | mwl_phonemizer/__init__.py:138-146 | every candidate index the `gu` rule uses is in bounds, and the result is a candidate of `gu` |
| Rules.LRule | mwl_phonemizer/__init__.py:147-151 | every candidate index the `l` rule uses (including [2]) is in bounds, and the result is a candidate of `l` |
| Rules.MRule | mwl_phonemizer/__init__.py:152-161 | every candidate index the `m` rule uses is in bounds, and the result is a candidate of `m` |
| Rules.NRule | mwl_phonemizer/__init__.py:162-168 | every candidate index the `n` rule uses (including [2]) is in bounds, and the result is a candidate of `n` |
| Rules.QuRule | mwl_phonemizer/__init__.py:172-178 | every candidate index the `qu` rule uses is in bounds, and the result is a candidate of `qu` |
| Rules.RRule | mwl_phonemizer/__init__.py:179-183 | every candidate index the `r` rule uses (including [2]) is in bounds, and the result is a candidate of `r` |
| Rules.SRule | mwl_phonemizer/__init__.py:184-196 | every candidate index the `s` rule uses is in bounds, and the result is a candidate of `s` |
| Rules.SVoicedConsonantBranchIsDead | mwl_phonemizer/__init__.py:185-192 | whenever the "vowel before, voiced consonant after" branch of the `s` rule would hold, the earlier "non-vowel after" branch already holds, so the branch is never taken |
| Rules.SOutcome | mwl_phonemizer/__init__.py:184-196 | `s` is [z̺] exactly when it stands between two vowels (raw characters), and [s̺] otherwise |
| Rules.COutcome | mwl_phonemizer/__init__.py:100-104 | `c` is [k] when the next character, lowercased, is `e` or `i`, and [s̻] otherwise |
| Rules.LOutcome | mwl_phonemizer/__init__.py:147-151 | `l` is [ɫ] at position 0 and [ʎ] elsewhere, and never its candidate 0 |
| Rules.ROutcome | mwl_phonemizer/__init__.py:179-183 | `r` is `rr` at position 0 or after `n`/`N`, and [ɾ] otherwise |
| Rules.NOutcome | mwl_phonemizer/__init__.py:162-168 | `n` is `~` at the end of the word or before a non-vowel, and [n] otherwise |
| Rules.QuOutcome | mwl_phonemizer/__init__.py:172-178 | `qu` is [kṷ] exactly when the character after the `u`, lowercased, is `a` or `n`, and [k] otherwise; an `e` there gives [k], because the earlier `e`/`i` test wins |
| Rules.GuOutcome | mwl_phonemizer/__init__.py:138-146 | `gu` is [g] after a vowel with a vowel after the `u`, or after `r`, and `gu` otherwise, and never [ɣ] |
| Rules.GOutcome | mwl_phonemizer/__init__.py:126-137 | `g` is [ɣ] between vowels or after `r`, otherwise [ʒ] before `e`/`i`, otherwise [g] |
| Rules.BOutcome | mwl_phonemizer/__init__.py:92-99 | `b` is [β] between vowels or after a voiced consonant, and [b] otherwise |
| Rules.DOutcome | mwl_phonemizer/__init__.py:114-121 | `d` is [ð] between vowels or after `r`, and [d] otherwise |
| Rules.MOutcome | mwl_phonemizer/__init__.py:152-161 | `m` is `~` when it is not word-initial and the next character, lowercased, is `p` or `b`, and [m] otherwise |
| Rules.DefaultCandidate | mwl_phonemizer/__init__.py:197-207 | every unit without a rule of its own (`ç`, `e`, `o`, `u`, `v`, `w` among them) takes candidate 0 whatever its context |
| Rules.PickRespectsContext | mwl_phonemizer/__init__.py:91-207 | two positions with the same characters one back, here, one and two ahead, and the same word boundaries, get the same phoneme for every unit |
| Rules.PickIsLocal | mwl_phonemizer/__init__.py:91-207 | the phoneme chosen in a word equals the one chosen in the window from one character before to two after the position |
| Word.KeyAt | mwl_phonemizer/__init__.py:88-90 | the lowercased window of length `n` at the cursor fits in the word and is a key of the table |
| Word.MatchLength | mwl_phonemizer/__init__.py:86-90 | the matched length is 0, 1 or 2; a positive length is a key at the cursor; no longer window there is a key |
| Word.Units | mwl_phonemizer/__init__.py:83-219 | the engine emits at most one piece per remaining character |
| Word.Concat | mwl_phonemizer/__init__.py:220 | the pieces joined with no separator |
| Word.Transcribe | mwl_phonemizer/__init__.py:80-220 | the specification of a word's output: the pieces `Units(w, 0)`, joined |
| Word.ConcatAppend | mwl_phonemizer/__init__.py:220 | joining two lists of pieces one after the other gives the joined whole |
| Word.UnitsAtMatch | mwl_phonemizer/__init__.py:87-211 | where a unit of length `n` matches (and no longer one), the next piece is the rule's phoneme and the cursor moves on by `n` |
| Word.UnitsAtFallback | mwl_phonemizer/__init__.py:213-219 | where no unit matches, the next piece is the character itself if it is kept, nothing otherwise, and the cursor moves on by 1 |
| Word.Windows | mwl_phonemizer/__init__.py:89 | the lowercased one- and two-character slices are the characters lowercased one by one |
| Word.NoMatchIffUnmapped | mwl_phonemizer/__init__.py:214-216 | no unit matches exactly when the lowercased character is not a one-letter key, so the table lookup in the fallback never succeeds |
| Word.AdvanceOnMatch | mwl_phonemizer/__init__.py:209-211 | appending the rule's phoneme and moving the cursor past the unit keeps "emitted so far + still to come" equal to the whole transcription |
| Word.AdvanceOnFallback | mwl_phonemizer/__init__.py:214-219 | keeping a kept character (or nothing) and moving the cursor by 1 keeps "emitted so far + still to come" equal to the whole transcription |
| Word.MatchAt | mwl_phonemizer/__init__.py:86-211 | the inner loop returns the longest matching length (0 for none) and, on a match, the phoneme the rules choose |
| Word.PhonemizeWord | mwl_phonemizer/__init__.py:80-220 | the loop terminates on every word and returns exactly the transcription `Transcribe(word)` |
| WordProperties.CursorAdvances | mwl_phonemizer/__init__.py:209-219 | every step moves the cursor forward by 1 or 2 and never past the end of the word |
| WordProperties.OutputSoFarIsPrefix | mwl_phonemizer/__init__.py:83-220 | at every step of the loop, the pieces emitted so far, joined, are a prefix of the final output, and the rest of the word's pieces supply the remainder |
| WordProperties.UnmappedCharacter | mwl_phonemizer/__init__.py:214-219 | a character whose lower case is not a one-letter key is copied if it is punctuation or whitespace and dropped otherwise |
| WordProperties.PickIsEmittable | mwl_phonemizer/__init__.py:91-207 | the phoneme the rules choose is a table phoneme |
| WordProperties.UnitsAreTableOrKept | mwl_phonemizer/__init__.py:80-220 | every emitted piece is a candidate phoneme of some unit or a single punctuation or whitespace character; no letter is ever copied |
| WordProperties.CircumflexDropped | mwl_phonemizer/__init__.py:214-219 | a lone `ê` or `ô` (either case) emits nothing |
| WordProperties.MonographStep | mwl_phonemizer/__init__.py:87-90 | a one-letter unit that does not start a two-letter unit is matched on its own |
| WordProperties.DigraphStep | mwl_phonemizer/__init__.py:87-90 | a two-letter unit is matched whole, before any one-letter key |
| WordProperties.LhInWord | mwl_phonemizer/__init__.py:87-90 | `lh` emits the single phoneme [ʎ], never `l` followed by the silent `h` |
| WordProperties.GuInWord | mwl_phonemizer/__init__.py:138 | `g` followed by `u` always goes through the `gu` rule, never the `g` rule |
| WordProperties.QuInWord | mwl_phonemizer/__init__.py:172 | `q` followed by `u` always goes through the `qu` rule |
| WordProperties.SInWord | mwl_phonemizer/__init__.py:184-196 | an `s` not followed by `s` emits the `s` rule's phoneme and advances by one |
| WordProperties.CInWord | mwl_phonemizer/__init__.py:100-104 | a `c` not followed by `h` emits the `c` rule's phoneme and advances by one |
| WordProperties.LInWord | mwl_phonemizer/__init__.py:147-151 | an `l` not followed by `h` emits the `l` rule's phoneme and advances by one |
| WordProperties.RInWord | mwl_phonemizer/__init__.py:179-183 | an `r` not followed by `r` emits the `r` rule's phoneme and advances by one |
| WordProperties.NInWord | mwl_phonemizer/__init__.py:162-168 | an `n` not followed by `h` emits the `n` rule's phoneme and advances by one |
| WordProperties.GInWord | mwl_phonemizer/__init__.py:126-137 | a `g` not followed by `u` emits the `g` rule's phoneme and advances by one |
| WordProperties.BInWord | mwl_phonemizer/__init__.py:92-99 | every `b` emits the `b` rule's phoneme and advances by one |
| WordProperties.DInWord | mwl_phonemizer/__init__.py:114-121 | every `d` emits the `d` rule's phoneme and advances by one |
| WordProperties.MInWord | mwl_phonemizer/__init__.py:152-161 | every `m` emits the `m` rule's phoneme and advances by one |
| WordProperties.UpperCaseNeighbour | mwl_phonemizer/__init__.py:92-99 | `b` before a vowel is [β] after a lower-case vowel but [b] after an upper-case letter: the lookup lowercases, the vowel test does not |
| Text.Render | mwl_phonemizer/__init__.py:227-230 | one token's output: the word engine's output for an alphabetic token, the token itself otherwise |
| Text.JoinEach | mwl_phonemizer/__init__.py:226-231 | a function applied to every token, the outputs joined in token order |
| Text.TranscribeText | mwl_phonemizer/__init__.py:223-231 | the specification of the driver: every token rendered, joined in order |
| Text.JoinOfParts | mwl_phonemizer/__init__.py:226-231 | a list holding each token's output, joined, is the token outputs joined in order |
| Text.MirandesePhonemizer | mwl_phonemizer/__init__.py:223-231 | the driver's loop returns exactly `TranscribeText(tokens, isAlpha)` |
| Text.JoinEachAppend | mwl_phonemizer/__init__.py:231 | joining the outputs of two token lists one after the other is joining the outputs of the whole |
| Text.TextAppend | mwl_phonemizer/__init__.py:226-231 | transcribing two token lists one after the other gives the same text as transcribing them together |
| Text.TokenInPlace | mwl_phonemizer/__init__.py:226-231 | each token's output sits between the outputs of the tokens before it and those after it |
| Text.NonWordTokensUnchanged | mwl_phonemizer/__init__.py:229-230 | a token list with no alphabetic token comes out as the tokens joined, unchanged |

## Left out

- The tokenizer regular expression (line 224) is left out. It relies on the Unicode word-character and word-boundary semantics of the host language. `MirandesePhonemizer` takes the token sequence as input, and `isalpha` as a predicate parameter.
- The demonstration block and its sample outputs (lines 234-291) are printing only, so they are left out.
- Lowercasing is one character at a time. `Lower` maps `A`-`Z`, the upper-case Latin-1 letters, U+0168 and the Kelvin sign. Every other character maps to itself. No other lowercase mapping produces a key letter or a letter a rule compares against. Mappings whose result is longer than one character (such as `İ`) are not modelled.
- The order in which the source tries key lengths comes from sorting the lengths of all keys, with repeats. The model tries 2, then 1. Repeated lengths only repeat a lookup that already failed.
- The `ç` rule (lines 105-113) has two branches that both take candidate 0. It is modelled as the default candidate, through `Rules.DefaultCandidate`.
- The table lookup at lines 215-216 can never succeed. `Word.PhonemizeWord` keeps the test but proves its branch unreachable (`Word.NoMatchIffUnmapped`), so that branch holds no append.
- `Word.PhonemizeWord` splits the inner `for` loop with `break` (lines 86-211) into the method `Word.MatchAt`. Its early `return` plays the part of the `break`, and a zero length plays the part of the `matched` flag.
- Word.Units: its own contract only bounds its length. What it computes is stated by `Word.UnitsAtMatch`, `Word.UnitsAtFallback`, `Word.PhonemizeWord` and the `WordProperties` lemmas.
