/** The text driver: the text arrives already split into tokens, words and
    the runs of other characters between them. Every token that is purely
    alphabetic goes through the word engine; every other token is copied.
    The outputs are joined in token order. */
module Text {
  import opened Word

  /** The output for one token. `isAlpha` is the alphabetic test applied to
      whole tokens. */
  function Render(token: string, isAlpha: string -> bool): string {
    if isAlpha(token) then Transcribe(token) else token
  }

  /** `f` applied to every token, the outputs joined in token order. */
  function JoinEach(tokens: seq<string>, f: string -> string): string {
    if tokens == [] then [] else f(tokens[0]) + JoinEach(tokens[1..], f)
  }

  /** The transcription of a token sequence. */
  function TranscribeText(tokens: seq<string>, isAlpha: string -> bool): string {
    JoinEach(tokens, t => Render(t, isAlpha))
  }

  /** A list holding `f` of each token, joined, is `JoinEach`. */
  lemma {:induction false} JoinOfParts(tokens: seq<string>, f: string -> string, parts: seq<string>)
    requires |parts| == |tokens|
    requires forall k :: 0 <= k < |tokens| ==> parts[k] == f(tokens[k])
    ensures Concat(parts) == JoinEach(tokens, f)
    decreases |tokens|
  {
    if tokens != [] {
      JoinOfParts(tokens[1..], f, parts[1..]);
    }
  }

  /** The driver's loop: one output part per token, appended in order, then
      joined. */
  method MirandesePhonemizer(tokens: seq<string>, isAlpha: string -> bool) returns (r: string)
    ensures r == TranscribeText(tokens, isAlpha)
  {
    var parts: seq<string> := [];
    for k := 0 to |tokens|
      invariant |parts| == k
      invariant forall j :: 0 <= j < k ==> parts[j] == Render(tokens[j], isAlpha)
    {
      var token := tokens[k];
      if isAlpha(token) {
        var p := PhonemizeWord(token);
        parts := parts + [p];
      } else {
        parts := parts + [token];
      }
    }
    JoinOfParts(tokens, t => Render(t, isAlpha), parts);
    r := Concat(parts);
  }

  /** Joining the outputs of two token sequences one after the other is
      joining the outputs of the whole. */
  lemma {:induction false} JoinEachAppend(a: seq<string>, b: seq<string>, f: string -> string)
    ensures JoinEach(a + b, f) == JoinEach(a, f) + JoinEach(b, f)
    decreases |a|
  {
    if a == [] {
      assert a + b == b;
    } else {
      assert (a + b)[0] == a[0] && (a + b)[1..] == a[1..] + b;
      JoinEachAppend(a[1..], b, f);
    }
  }

  /** Transcribing two token sequences one after the other gives the same
      text as transcribing them together: no token sees its neighbours. */
  lemma TextAppend(a: seq<string>, b: seq<string>, isAlpha: string -> bool)
    ensures TranscribeText(a + b, isAlpha) == TranscribeText(a, isAlpha) + TranscribeText(b, isAlpha)
  {
    JoinEachAppend(a, b, t => Render(t, isAlpha));
  }

  /** Each token's output sits in place between the outputs of the tokens
      before it and those after it. */
  lemma TokenInPlace(tokens: seq<string>, k: nat, isAlpha: string -> bool)
    requires k < |tokens|
    ensures TranscribeText(tokens, isAlpha) ==
      TranscribeText(tokens[..k], isAlpha) + Render(tokens[k], isAlpha) + TranscribeText(tokens[k + 1..], isAlpha)
  {
    var f := t => Render(t, isAlpha);
    assert tokens == tokens[..k] + ([tokens[k]] + tokens[k + 1..]);
    JoinEachAppend(tokens[..k], [tokens[k]] + tokens[k + 1..], f);
    JoinEachAppend([tokens[k]], tokens[k + 1..], f);
    assert JoinEach([tokens[k]], f) == f(tokens[k]) + JoinEach([], f);
  }

  /** A text with no alphabetic token comes out unchanged. */
  lemma NonWordTokensUnchanged(tokens: seq<string>, isAlpha: string -> bool)
    requires forall k :: 0 <= k < |tokens| ==> !isAlpha(tokens[k])
    ensures TranscribeText(tokens, isAlpha) == Concat(tokens)
  {
    JoinOfParts(tokens, t => Render(t, isAlpha), tokens);
  }
}
