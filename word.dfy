/** The word engine: a cursor walks the word, takes the longest unit of the
    grapheme table that starts at the cursor, lets the rules choose one of
    its candidates, and moves past the unit. A character that starts no unit
    is kept when it is punctuation or whitespace and dropped otherwise. */
module Word {
  import opened Alphabet
  import opened Rules

  /** The `n` characters at position `i` of `w`, lowercased, form a key. */
  predicate KeyAt(w: string, i: nat, n: nat) {
    i + n <= |w| && IsKey(LowerString(w[i..i + n]))
  }

  /** The length of the unit matched at position `i`, 0 when none matches:
      the longest length at which a key starts there. */
  function MatchLength(w: string, i: nat): (n: nat)
    ensures n <= 2
    ensures n > 0 ==> KeyAt(w, i, n)
    ensures forall m :: n < m <= 2 ==> !KeyAt(w, i, m)
  {
    if KeyAt(w, i, 2) then 2 else if KeyAt(w, i, 1) then 1 else 0
  }

  /** The phonemes emitted from position `i` to the end of `w`, in order:
      one per matched unit, one per kept punctuation or whitespace
      character, none for a dropped character. */
  function Units(w: string, i: nat): (ps: seq<string>)
    requires i <= |w|
    ensures |ps| <= |w| - i
    decreases |w| - i
  {
    if i == |w| then []
    else
      var n := MatchLength(w, i);
      if n > 0 then [Pick(w, i, LowerString(w[i..i + n]))] + Units(w, i + n)
      else if IsKept(w[i]) then [[w[i]]] + Units(w, i + 1)
      else Units(w, i + 1)
  }

  /** The strings of `parts` joined with no separator. */
  function Concat(parts: seq<string>): (s: string)
  {
    if parts == [] then [] else parts[0] + Concat(parts[1..])
  }

  /** Joining distributes over concatenation of the lists. */
  lemma {:induction false} ConcatAppend(a: seq<string>, b: seq<string>)
    ensures Concat(a + b) == Concat(a) + Concat(b)
    decreases |a|
  {
    if a != [] {
      assert (a + b)[1..] == a[1..] + b;
      ConcatAppend(a[1..], b);
    } else {
      assert a + b == b;
    }
  }

  /** A piece the engine may emit: a candidate phoneme of a unit of the
      table, or one punctuation or whitespace character. */
  ghost predicate Emittable(p: string) {
    (exists g :: IsKey(g) && p in Candidates(g)) || (|p| == 1 && IsKept(p[0]))
  }

  /** The transcription of a whole word. */
  function Transcribe(w: string): string {
    Concat(Units(w, 0))
  }

  /** One step of `Units` where a unit of length `n` matches. */
  lemma UnitsAtMatch(w: string, i: nat, n: nat)
    requires i < |w| && 1 <= n <= 2 && KeyAt(w, i, n)
    requires n == 1 ==> !KeyAt(w, i, 2)
    ensures MatchLength(w, i) == n
    ensures Units(w, i) == [Pick(w, i, LowerString(w[i..i + n]))] + Units(w, i + n)
  {
  }

  /** One step of `Units` where no unit matches. */
  lemma UnitsAtFallback(w: string, i: nat)
    requires i < |w| && !KeyAt(w, i, 2) && !KeyAt(w, i, 1)
    ensures MatchLength(w, i) == 0
    ensures Units(w, i) == (if IsKept(w[i]) then [[w[i]]] else []) + Units(w, i + 1)
  {
  }

  /** The one- and two-character windows at `i`, lowercased. */
  lemma Windows(w: string, i: nat)
    requires i < |w|
    ensures LowerString(w[i..i + 1]) == [Lower(w[i])]
    ensures KeyAt(w, i, 1) == IsKey([Lower(w[i])])
    ensures i + 1 < |w| ==> LowerString(w[i..i + 2]) == [Lower(w[i]), Lower(w[i + 1])]
    ensures i + 1 < |w| ==> KeyAt(w, i, 2) == IsKey([Lower(w[i]), Lower(w[i + 1])])
  {
    assert LowerString(w[i..i + 1]) == [Lower(w[i])];
    if i + 1 < |w| {
      assert LowerString(w[i..i + 2]) == [Lower(w[i]), Lower(w[i + 1])];
    }
  }

  /** No unit matches at `i` exactly when the lowercased character there is
      not a one-letter key; so the single-character table lookup that the
      fallback performs first can never succeed. */
  lemma NoMatchIffUnmapped(w: string, i: nat)
    requires i < |w|
    ensures MatchLength(w, i) == 0 <==> !IsKey([Lower(w[i])])
  {
    Windows(w, i);
    if !IsKey([Lower(w[i])]) && i + 1 < |w| {
      DigraphHeadsAreKeys();
      var g := [Lower(w[i]), Lower(w[i + 1])];
      assert [g[0]] == [Lower(w[i])];
    }
  }

  /** Regrouping a list built in three pieces. */
  lemma Regroup(done: seq<string>, step: seq<string>, rest: seq<string>)
    ensures (done + step) + rest == done + (step + rest)
  {
  }

  /** The loop's step on a match: the emitted phonemes followed by what is
      still to come stay equal to the whole. */
  lemma AdvanceOnMatch(w: string, i: nat, n: nat, done: seq<string>, whole: seq<string>)
    requires i < |w| && 1 <= n <= 2 && KeyAt(w, i, n)
    requires n == 1 ==> !KeyAt(w, i, 2)
    requires done + Units(w, i) == whole
    ensures (done + [Pick(w, i, LowerString(w[i..i + n]))]) + Units(w, i + n) == whole
  {
    UnitsAtMatch(w, i, n);
    Regroup(done, [Pick(w, i, LowerString(w[i..i + n]))], Units(w, i + n));
  }

  /** The loop's step when nothing matches. */
  lemma AdvanceOnFallback(w: string, i: nat, done: seq<string>, whole: seq<string>)
    requires i < |w| && !KeyAt(w, i, 2) && !KeyAt(w, i, 1)
    requires done + Units(w, i) == whole
    ensures IsKept(w[i]) ==> (done + [[w[i]]]) + Units(w, i + 1) == whole
    ensures !IsKept(w[i]) ==> done + Units(w, i + 1) == whole
  {
    UnitsAtFallback(w, i);
    if IsKept(w[i]) {
      Regroup(done, [[w[i]]], Units(w, i + 1));
    } else {
      assert [] + Units(w, i + 1) == Units(w, i + 1);
    }
  }

  /** The inner loop of the engine at position `i`: the key lengths are
      tried longest first, and the first window that is a key is the unit.
      On a match the result is the unit's length and the phoneme the rules
      choose for it; with no match the length is 0. */
  method MatchAt(word: string, i: nat) returns (length: nat, phoneme: string)
    requires i < |word|
    ensures length == MatchLength(word, i)
    ensures length > 0 ==> phoneme == Pick(word, i, LowerString(word[i..i + length]))
  {
    length, phoneme := 0, "";
    var j := 0;
    while j < |KeyLengths|
      invariant 0 <= j <= |KeyLengths|
      invariant j > 0 ==> !KeyAt(word, i, 2)
      invariant j > 1 ==> !KeyAt(word, i, 1)
    {
      var n := KeyLengths[j];
      assert n == 2 - j by {
        assert KeyLengths == [2, 1];
      }
      if i + n <= |word| {
        var grapheme := LowerString(word[i..i + n]);
        if IsKey(grapheme) {
          length, phoneme := n, Pick(word, i, grapheme);
          return;
        }
      }
      j := j + 1;
    }
  }

  /** The engine's loop: the cursor `i` and the `phonemes` list change step
      by step. A position with no unit keeps punctuation and whitespace; the
      single-character table lookup tried first there never succeeds. */
  method PhonemizeWord(word: string) returns (r: string)
    ensures r == Transcribe(word)
  {
    ghost var whole := Units(word, 0);
    var phonemes: seq<string> := [];
    var i := 0;
    while i < |word|
      invariant i <= |word|
      invariant phonemes + Units(word, i) == whole
      decreases |word| - i
    {
      var length, phoneme := MatchAt(word, i);
      if length > 0 {
        AdvanceOnMatch(word, i, length, phonemes, whole);
        phonemes := phonemes + [phoneme];
        i := i + length;
      } else {
        AdvanceOnFallback(word, i, phonemes, whole);
        if IsKey([Lower(word[i])]) {
          NoMatchIffUnmapped(word, i);
          assert false;
        } else if IsKept(word[i]) {
          phonemes := phonemes + [[word[i]]];
        }
        i := i + 1;
      }
    }
    assert phonemes == whole by {
      assert Units(word, i) == [];
    }
    r := Concat(phonemes);
  }
}

/** What the word engine promises: longest match, the fallback for
    characters outside the table, the outcome of each context rule, and how
    upper case is treated. */
module WordProperties {
  import opened Alphabet
  import opened Rules
  import opened Word

  /** Every step moves the cursor forward by at least one character and
      never past the end of the word. */
  lemma CursorAdvances(w: string, i: nat)
    requires i < |w|
    ensures var step := if MatchLength(w, i) > 0 then MatchLength(w, i) else 1;
            1 <= step && i + step <= |w|
  {
  }

  /** At every step of the word loop, the pieces emitted so far, joined,
      are the start of the final output, and the rest of the word supplies
      the remainder. */
  lemma OutputSoFarIsPrefix(w: string, i: nat, done: seq<string>)
    requires i <= |w|
    ensures done + Units(w, i) == Units(w, 0) ==>
              Transcribe(w) == Concat(done) + Concat(Units(w, i)) && Concat(done) <= Transcribe(w)
  {
    ConcatAppend(done, Units(w, i));
  }

  /** A character that starts no unit is emitted verbatim when it is
      punctuation or whitespace and dropped otherwise. */
  lemma UnmappedCharacter(w: string, i: nat)
    requires i < |w| && !IsKey([Lower(w[i])])
    ensures Units(w, i) == (if IsKept(w[i]) then [[w[i]]] else []) + Units(w, i + 1)
  {
    NoMatchIffUnmapped(w, i);
    UnitsAtFallback(w, i);
  }

  /** Every piece of `ps` is emittable. */
  ghost predicate AllEmittable(ps: seq<string>) {
    forall k :: 0 <= k < |ps| ==> Emittable(ps[k])
  }

  /** Adding emittable pieces in front keeps every piece emittable. */
  lemma AllEmittablePrepend(front: seq<string>, rest: seq<string>)
    requires AllEmittable(front) && AllEmittable(rest)
    ensures AllEmittable(front + rest)
  {
    forall k | 0 <= k < |front + rest| ensures Emittable((front + rest)[k]) {
      if k >= |front| {
        assert (front + rest)[k] == rest[k - |front|];
      }
    }
  }

  /** The phoneme the rules choose for a unit is emittable. */
  lemma PickIsEmittable(w: string, i: nat, g: string)
    requires i < |w| && IsKey(g)
    ensures Emittable(Pick(w, i, g))
  {
  }

  /** Every piece emitted is a table phoneme or a kept character: the
      engine invents nothing and copies no letter. */
  lemma {:induction false} UnitsAreTableOrKept(w: string, i: nat)
    requires i <= |w|
    ensures AllEmittable(Units(w, i))
    decreases |w| - i
  {
    if i < |w| {
      var n := MatchLength(w, i);
      if n > 0 {
        UnitsAtMatch(w, i, n);
        var g := LowerString(w[i..i + n]);
        var p := Pick(w, i, g);
        PickIsEmittable(w, i, g);
        UnitsAreTableOrKept(w, i + n);
        AllEmittablePrepend([p], Units(w, i + n));
      } else {
        UnitsAtFallback(w, i);
        UnitsAreTableOrKept(w, i + 1);
        if IsKept(w[i]) {
          assert Emittable([w[i]]);
          AllEmittablePrepend([[w[i]]], Units(w, i + 1));
        } else {
          assert [] + Units(w, i + 1) == Units(w, i + 1);
        }
      }
    }
  }

  /** `ê` and `ô` (either case) start no unit and are not punctuation: on
      their own they are dropped. (`ê` right after an `i` that starts a unit
      is part of `iê`; after `ai`, `ei`, `oi`, `ói` or `ui` it is reached on
      its own and dropped.) */
  lemma CircumflexDropped(w: string, i: nat)
    requires i < |w| && (Lower(w[i]) == 'ê' || Lower(w[i]) == 'ô')
    ensures Units(w, i) == Units(w, i + 1)
  {
    assert !IsKept(w[i]) by {
      if IsKept(w[i]) {
        PunctuationStartsNoUnit(w[i]);
      }
    }
    assert Candidates([Lower(w[i])]) == [];
    UnmappedCharacter(w, i);
    assert [] + Units(w, i + 1) == Units(w, i + 1);
  }

  /** A one-letter unit `c` that does not start a two-letter unit is
      matched on its own. */
  lemma MonographStep(w: string, i: nat, c: char)
    requires i < |w| && Lower(w[i]) == c && IsKey([c])
    requires !(i + 1 < |w| && IsKey([c, Lower(w[i + 1])]))
    ensures Units(w, i) == [Pick(w, i, [c])] + Units(w, i + 1)
  {
    Windows(w, i);
    UnitsAtMatch(w, i, 1);
  }

  /** A two-letter unit `cd` is matched whole. */
  lemma DigraphStep(w: string, i: nat, c: char, d: char)
    requires i + 1 < |w| && Lower(w[i]) == c && Lower(w[i + 1]) == d && IsKey([c, d])
    ensures Units(w, i) == [Pick(w, i, [c, d])] + Units(w, i + 2)
  {
    Windows(w, i);
    UnitsAtMatch(w, i, 2);
  }

  /** `lh` is one unit: it gives the palatal lateral, never `l` followed by
      a silent `h`. */
  lemma LhInWord(w: string, i: nat)
    requires i + 1 < |w| && Lower(w[i]) == 'l' && Lower(w[i + 1]) == 'h'
    ensures Units(w, i) == ["ʎ"] + Units(w, i + 2)
  {
    assert Pick(w, i, ['l', 'h']) == "ʎ";
    DigraphStep(w, i, 'l', 'h');
  }

  /** `g` before `u` is always the unit `gu`, never the `g` rule. */
  lemma GuInWord(w: string, i: nat)
    requires i + 1 < |w| && Lower(w[i]) == 'g' && Lower(w[i + 1]) == 'u'
    ensures Units(w, i) == [GuRule(w, i)] + Units(w, i + 2)
  {
    assert Pick(w, i, ['g', 'u']) == GuRule(w, i);
    DigraphStep(w, i, 'g', 'u');
  }

  /** `q` before `u` is always the unit `qu`. */
  lemma QuInWord(w: string, i: nat)
    requires i + 1 < |w| && Lower(w[i]) == 'q' && Lower(w[i + 1]) == 'u'
    ensures Units(w, i) == [QuRule(w, i)] + Units(w, i + 2)
  {
    assert Pick(w, i, ['q', 'u']) == QuRule(w, i);
    DigraphStep(w, i, 'q', 'u');
  }

  /** `s` not doubled is the unit `s`. */
  lemma SInWord(w: string, i: nat)
    requires i < |w| && Lower(w[i]) == 's'
    requires !(i + 1 < |w| && Lower(w[i + 1]) == 's')
    ensures Units(w, i) == [SRule(w, i)] + Units(w, i + 1)
  {
    assert Pick(w, i, ['s']) == SRule(w, i);
    MonographStep(w, i, 's');
  }

  /** `c` not followed by `h` is the unit `c`. */
  lemma CInWord(w: string, i: nat)
    requires i < |w| && Lower(w[i]) == 'c'
    requires !(i + 1 < |w| && Lower(w[i + 1]) == 'h')
    ensures Units(w, i) == [CRule(w, i)] + Units(w, i + 1)
  {
    assert Pick(w, i, ['c']) == CRule(w, i);
    MonographStep(w, i, 'c');
  }

  /** `l` not followed by `h` is the unit `l`. */
  lemma LInWord(w: string, i: nat)
    requires i < |w| && Lower(w[i]) == 'l'
    requires !(i + 1 < |w| && Lower(w[i + 1]) == 'h')
    ensures Units(w, i) == [LRule(w, i)] + Units(w, i + 1)
  {
    assert Pick(w, i, ['l']) == LRule(w, i);
    MonographStep(w, i, 'l');
  }

  /** `r` not doubled is the unit `r`. */
  lemma RInWord(w: string, i: nat)
    requires i < |w| && Lower(w[i]) == 'r'
    requires !(i + 1 < |w| && Lower(w[i + 1]) == 'r')
    ensures Units(w, i) == [RRule(w, i)] + Units(w, i + 1)
  {
    assert Pick(w, i, ['r']) == RRule(w, i);
    MonographStep(w, i, 'r');
  }

  /** `n` not followed by `h` is the unit `n`. */
  lemma NInWord(w: string, i: nat)
    requires i < |w| && Lower(w[i]) == 'n'
    requires !(i + 1 < |w| && Lower(w[i + 1]) == 'h')
    ensures Units(w, i) == [NRule(w, i)] + Units(w, i + 1)
  {
    assert Pick(w, i, ['n']) == NRule(w, i);
    MonographStep(w, i, 'n');
  }

  /** `g` not followed by `u` is the unit `g`. */
  lemma GInWord(w: string, i: nat)
    requires i < |w| && Lower(w[i]) == 'g'
    requires !(i + 1 < |w| && Lower(w[i + 1]) == 'u')
    ensures Units(w, i) == [GRule(w, i)] + Units(w, i + 1)
  {
    assert Pick(w, i, ['g']) == GRule(w, i);
    MonographStep(w, i, 'g');
  }

  /** `b` starts no two-letter unit: it is always its own unit. */
  lemma BInWord(w: string, i: nat)
    requires i < |w| && Lower(w[i]) == 'b'
    ensures Units(w, i) == [BRule(w, i)] + Units(w, i + 1)
  {
    assert Pick(w, i, ['b']) == BRule(w, i);
    MonographStep(w, i, 'b');
  }

  /** `d` starts no two-letter unit: it is always its own unit. */
  lemma DInWord(w: string, i: nat)
    requires i < |w| && Lower(w[i]) == 'd'
    ensures Units(w, i) == [DRule(w, i)] + Units(w, i + 1)
  {
    assert Pick(w, i, ['d']) == DRule(w, i);
    MonographStep(w, i, 'd');
  }

  /** `m` starts no two-letter unit: it is always its own unit. */
  lemma MInWord(w: string, i: nat)
    requires i < |w| && Lower(w[i]) == 'm'
    ensures Units(w, i) == [MRule(w, i)] + Units(w, i + 1)
  {
    assert Pick(w, i, ['m']) == MRule(w, i);
    MonographStep(w, i, 'm');
  }

  /** Upper case changes the context rules. The lookup lowercases, but the
      vowel test sees the raw character: `b` after a lower-case vowel and
      before a vowel is [β] (as in `aba`), and after an upper-case letter it
      is [b] (as in `Aba`). */
  lemma UpperCaseNeighbour(w: string, i: nat)
    requires 0 < i && i + 1 < |w| && Lower(w[i]) == 'b' && IsVowel(w[i + 1])
    ensures IsVowel(w[i - 1]) ==> Units(w, i) == ["β"] + Units(w, i + 1)
    ensures 'A' <= w[i - 1] <= 'Z' ==> Units(w, i) == ["b"] + Units(w, i + 1)
  {
    BInWord(w, i);
    BOutcome(w, i);
    if 'A' <= w[i - 1] <= 'Z' {
      UpperCaseInNoClass(w[i - 1]);
    }
  }
}
