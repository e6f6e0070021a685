/** The per-grapheme context rules: once the word engine has matched a unit
    `g` of the grapheme table at position `i` of word `w`, `Pick` chooses one
    of the unit's candidates by looking at the neighbouring characters of the
    same word. Vowel and voiced-consonant tests see the raw character; the
    tests against particular letters (`r`, `n`, `e`, `i`, ...) lowercase it. */
module Rules {
  import opened Alphabet

  /** The phoneme chosen for unit `g` matched at position `i` of `w`: one
      rule per unit that has one, candidate 0 for every other unit. */
  function Pick(w: string, i: nat, g: string): (p: string)
    requires i < |w|
    requires IsKey(g)
    ensures p in Candidates(g)
  {
    if |g| == 1 then
      match g[0]
      case 'b' => BRule(w, i)
      case 'c' => CRule(w, i)
      case 'd' => DRule(w, i)
      case 'g' => GRule(w, i)
      case 'l' => LRule(w, i)
      case 'm' => MRule(w, i)
      case 'n' => NRule(w, i)
      case 'r' => RRule(w, i)
      case 's' => SRule(w, i)
      // `ç`, `e`, `o`, `u`, `v`, `w` and the other units without a rule
      case _ => Candidates(g)[0]
    else if g[0] == 'g' && g[1] == 'u' then GuRule(w, i)
    else if g[0] == 'q' && g[1] == 'u' then QuRule(w, i)
    else Candidates(g)[0]
  }

  /** `b` is [β] between vowels and after a voiced consonant, [b] elsewhere. */
  function BRule(w: string, i: nat): (p: string)
    requires i < |w|
    ensures p in Candidates("b")
  {
    if (i > 0 && IsVowel(w[i - 1])) && (i + 1 < |w| && IsVowel(w[i + 1])) then Candidates("b")[1]
    else if i > 0 && IsVoicedConsonant(w[i - 1]) then Candidates("b")[1]
    else Candidates("b")[0]
  }

  /** `c` takes candidate 0 ([k]) before `e` or `i` and candidate 1 ([s̻])
      elsewhere. */
  function CRule(w: string, i: nat): (p: string)
    requires i < |w|
    ensures p in Candidates("c")
  {
    if i + 1 < |w| && Lower(w[i + 1]) in "ei" then Candidates("c")[0]
    else Candidates("c")[1]
  }

  /** `d` is [ð] between vowels and after `r`, [d] elsewhere. */
  function DRule(w: string, i: nat): (p: string)
    requires i < |w|
    ensures p in Candidates("d")
  {
    if (i > 0 && IsVowel(w[i - 1])) && (i + 1 < |w| && IsVowel(w[i + 1])) then Candidates("d")[1]
    else if i > 0 && Lower(w[i - 1]) == 'r' then Candidates("d")[1]
    else Candidates("d")[0]
  }

  /** `g` is [ɣ] between vowels and after `r`, else [ʒ] before `e` or `i`,
      else [g]. */
  function GRule(w: string, i: nat): (p: string)
    requires i < |w|
    ensures p in Candidates("g")
  {
    if (i > 0 && IsVowel(w[i - 1])) && (i + 1 < |w| && IsVowel(w[i + 1])) then Candidates("g")[1]
    else if i > 0 && Lower(w[i - 1]) == 'r' then Candidates("g")[1]
    else if i + 1 < |w| && Lower(w[i + 1]) in "ei" then Candidates("g")[2]
    else Candidates("g")[0]
  }

  /** `gu` takes candidate 0 when a vowel precedes it and a vowel follows
      the `u`, or when `r` precedes it; candidate 1 elsewhere. */
  function GuRule(w: string, i: nat): (p: string)
    requires i < |w|
    ensures p in Candidates("gu")
  {
    if (i > 0 && IsVowel(w[i - 1])) && (i + 2 < |w| && IsVowel(w[i + 2])) then Candidates("gu")[0]
    else if i > 0 && Lower(w[i - 1]) == 'r' then Candidates("gu")[0]
    else Candidates("gu")[1]
  }

  /** `l` takes candidate 2 ([ɫ]) at the start of the word and candidate 1
      ([ʎ]) elsewhere. */
  function LRule(w: string, i: nat): (p: string)
    requires i < |w|
    ensures p in Candidates("l")
  {
    if i == 0 then Candidates("l")[2]
    else Candidates("l")[1]
  }

  /** `m` is silent (`~`) inside the word before `p` or `b`, [m] elsewhere. */
  function MRule(w: string, i: nat): (p: string)
    requires i < |w|
    ensures p in Candidates("m")
  {
    if i + 1 < |w| && Lower(w[i + 1]) in "pb" && i > 0 then Candidates("m")[1]
    else Candidates("m")[0]
  }

  /** `n` is silent (`~`) before a non-vowel and at the end of the word, [n]
      elsewhere. */
  function NRule(w: string, i: nat): (p: string)
    requires i < |w|
    ensures p in Candidates("n")
  {
    if (i + 1 < |w| && !IsVowel(w[i + 1])) || i == |w| - 1 then Candidates("n")[2]
    else Candidates("n")[0]
  }

  /** `qu` is [k] before `e` or `i`, [kṷ] before `a`, `e` or `n`, [k]
      elsewhere; the letter tested is the one after the `u`. */
  function QuRule(w: string, i: nat): (p: string)
    requires i < |w|
    ensures p in Candidates("qu")
  {
    if i + 2 < |w| && Lower(w[i + 2]) in "ei" then Candidates("qu")[0]
    else if i + 2 < |w| && Lower(w[i + 2]) in "aen" then Candidates("qu")[1]
    else Candidates("qu")[0]
  }

  /** `r` is the trill `rr` at the start of the word and after `n`, the tap
      [ɾ] elsewhere. */
  function RRule(w: string, i: nat): (p: string)
    requires i < |w|
    ensures p in Candidates("r")
  {
    if i == 0 || (i > 0 && Lower(w[i - 1]) == 'n') then Candidates("r")[2]
    else Candidates("r")[0]
  }

  /** `s` is [s̺] at the start of the word and before a non-vowel, [z̺]
      after a vowel and before a voiced consonant or a vowel, [s̺]
      elsewhere. */
  function SRule(w: string, i: nat): (p: string)
    requires i < |w|
    ensures p in Candidates("s")
  {
    var voiceless, voiced := Candidates("s")[0], Candidates("s")[1];
    if i == 0 || (i + 1 < |w| && !IsVowel(w[i + 1])) then voiceless
    else if (i > 0 && IsVowel(w[i - 1])) && (i + 1 < |w| && IsVoicedConsonant(w[i + 1])) then voiced
    else if (i > 0 && IsVowel(w[i - 1])) && (i + 1 < |w| && IsVowel(w[i + 1])) then voiced
    else voiceless
  }

  /** The second branch of the `s` rule (a vowel before and a voiced
      consonant after) is never taken: a voiced consonant after the `s` is a
      non-vowel, which the first branch already catches. */
  lemma SVoicedConsonantBranchIsDead(w: string, i: nat)
    requires i < |w|
    ensures !((i > 0 && IsVowel(w[i - 1])) && (i + 1 < |w| && IsVoicedConsonant(w[i + 1])))
            || i == 0 || (i + 1 < |w| && !IsVowel(w[i + 1]))
  {
    if i + 1 < |w| && IsVoicedConsonant(w[i + 1]) {
      VoicedConsonantsAreNotVowels(w[i + 1]);
    }
  }

  /** `s` is voiced, [z̺], exactly when it stands between two vowels of the
      word, and [s̺] otherwise. */
  lemma SOutcome(w: string, i: nat)
    requires i < |w|
    ensures SRule(w, i) ==
      if i > 0 && i + 1 < |w| && IsVowel(w[i - 1]) && IsVowel(w[i + 1]) then "z̺" else "s̺"
  {
    SVoicedConsonantBranchIsDead(w, i);
  }

  /** `c` is [k] before `e` or `i` and [s̻] otherwise. */
  lemma COutcome(w: string, i: nat)
    requires i < |w|
    ensures CRule(w, i) ==
      if i + 1 < |w| && (Lower(w[i + 1]) == 'e' || Lower(w[i + 1]) == 'i') then "k" else "s̻"
  {
  }

  /** `l` is [ɫ] at the start of the word and [ʎ] everywhere else; its
      candidate 0, [l], is never chosen. */
  lemma LOutcome(w: string, i: nat)
    requires i < |w|
    ensures LRule(w, i) == if i == 0 then "ɫ" else "ʎ"
    ensures LRule(w, i) != Candidates("l")[0]
  {
  }

  /** `r` is the trill `rr` at the start of the word and after `n` (either
      case), and the tap [ɾ] otherwise. */
  lemma ROutcome(w: string, i: nat)
    requires i < |w|
    ensures RRule(w, i) == if i == 0 || Lower(w[i - 1]) == 'n' then "rr" else "ɾ"
  {
  }

  /** `n` is silent (`~`) at the end of the word and before a non-vowel,
      and [n] before a vowel. */
  lemma NOutcome(w: string, i: nat)
    requires i < |w|
    ensures NRule(w, i) == if i + 1 == |w| || !IsVowel(w[i + 1]) then "~" else "n"
  {
  }

  /** `qu` is [kṷ] exactly when the letter after the `u` is `a` or `n`,
      and [k] otherwise. */
  lemma QuOutcome(w: string, i: nat)
    requires i < |w|
    ensures QuRule(w, i) ==
      if i + 2 < |w| && (Lower(w[i + 2]) == 'a' || Lower(w[i + 2]) == 'n') then "kṷ" else "k"
  {
  }

  /** `gu` is [g] after a vowel with a vowel after the `u`, or after `r`,
      and [gu] otherwise; its candidate [ɣ] is never chosen. */
  lemma GuOutcome(w: string, i: nat)
    requires i < |w|
    ensures GuRule(w, i) ==
      if i > 0 && ((IsVowel(w[i - 1]) && i + 2 < |w| && IsVowel(w[i + 2])) || Lower(w[i - 1]) == 'r')
      then "g" else "gu"
    ensures GuRule(w, i) != Candidates("gu")[2]
  {
  }

  /** `g` is [ɣ] between vowels and after `r`, else [ʒ] before `e` or `i`,
      else [g]. */
  lemma GOutcome(w: string, i: nat)
    requires i < |w|
    ensures GRule(w, i) ==
      if i > 0 && ((IsVowel(w[i - 1]) && i + 1 < |w| && IsVowel(w[i + 1])) || Lower(w[i - 1]) == 'r') then "ɣ"
      else if i + 1 < |w| && (Lower(w[i + 1]) == 'e' || Lower(w[i + 1]) == 'i') then "ʒ"
      else "g"
  {
  }

  /** `b` is [β] between vowels and after a voiced consonant, [b]
      otherwise. */
  lemma BOutcome(w: string, i: nat)
    requires i < |w|
    ensures BRule(w, i) ==
      if i > 0 && ((IsVowel(w[i - 1]) && i + 1 < |w| && IsVowel(w[i + 1])) || IsVoicedConsonant(w[i - 1]))
      then "β" else "b"
  {
  }

  /** `d` is [ð] between vowels and after `r`, [d] otherwise. */
  lemma DOutcome(w: string, i: nat)
    requires i < |w|
    ensures DRule(w, i) ==
      if i > 0 && ((IsVowel(w[i - 1]) && i + 1 < |w| && IsVowel(w[i + 1])) || Lower(w[i - 1]) == 'r')
      then "ð" else "d"
  {
  }

  /** `m` is silent (`~`) inside the word before `p` or `b`, [m]
      otherwise. */
  lemma MOutcome(w: string, i: nat)
    requires i < |w|
    ensures MRule(w, i) ==
      if 0 < i && i + 1 < |w| && (Lower(w[i + 1]) == 'p' || Lower(w[i + 1]) == 'b') then "~" else "m"
  {
  }

  /** The units with a context rule of their own. */
  predicate HasRule(g: string) {
    (|g| == 1 && g[0] in "bcdglmnrs") || (|g| == 2 && g[1] == 'u' && (g[0] == 'g' || g[0] == 'q'))
  }

  /** Every other unit, `ç`, `e`, `o`, `u`, `v` and `w` among them, always
      takes candidate 0, whatever its neighbours. */
  lemma DefaultCandidate(w: string, i: nat, g: string)
    requires i < |w| && IsKey(g) && !HasRule(g)
    ensures Pick(w, i, g) == Candidates(g)[0]
  {
  }

  /** Position `i` of `w` and position `j` of `v` look the same to the
      rules: the same character one back, here, one and two ahead, and the
      same word boundaries. */
  ghost predicate SameContext(w: string, i: nat, v: string, j: nat)
    requires i < |w| && j < |v|
  {
    && (i > 0) == (j > 0)
    && (i > 0 ==> w[i - 1] == v[j - 1])
    && w[i] == v[j]
    && (i + 1 < |w|) == (j + 1 < |v|)
    && (i + 1 < |w| ==> w[i + 1] == v[j + 1])
    && (i + 2 < |w|) == (j + 2 < |v|)
    && (i + 2 < |w| ==> w[i + 2] == v[j + 2])
  }

  /** The rules see nothing but the context: two positions with the same
      context get the same phoneme for every unit. */
  lemma PickRespectsContext(w: string, i: nat, v: string, j: nat, g: string)
    requires i < |w| && j < |v| && IsKey(g)
    requires SameContext(w, i, v, j)
    ensures Pick(w, i, g) == Pick(v, j, g)
  {
  }

  /** The rules look no further than one character back and two ahead: the
      choice made in `w` is the one made in the window of `w` around `i`. */
  lemma PickIsLocal(w: string, i: nat, g: string)
    requires i < |w|
    requires IsKey(g)
    ensures var lo, hi := if i > 0 then i - 1 else 0, if i + 3 <= |w| then i + 3 else |w|;
            Pick(w, i, g) == Pick(w[lo..hi], i - lo, g)
  {
    var lo, hi := if i > 0 then i - 1 else 0, if i + 3 <= |w| then i + 3 else |w|;
    assert SameContext(w, i, w[lo..hi], i - lo);
    PickRespectsContext(w, i, w[lo..hi], i - lo, g);
  }
}
