/** The token budget of an evidence envelope: a token estimate, the longest prefix that fits it, and the loop
    that spends the budget over the hits. */
module Evidence {
  datatype Class = Word | Space | Mark

  /** A character with its class: word character, whitespace, or anything else. */
  datatype Glyph = Glyph(kind: Class, code: int)

  type Text = seq<Glyph>

  predicate StartsToken(text: Text, i: nat)
    requires i < |text|
  {
    text[i].kind == Mark || (text[i].kind == Word && (i == 0 || text[i - 1].kind != Word))
  }

  /** The number of maximal runs of word characters and single marks. */
  function Tokens(text: Text): nat
    decreases |text|
  {
    if text == [] then 0
    else
      var n := |text| - 1;
      Tokens(text[..n]) + if StartsToken(text, n) then 1 else 0
  }

  function Estimate(text: Text): nat {
    var quarters := (|text| + 3) / 4;
    if Tokens(text) > quarters then Tokens(text) else quarters
  }

  /** The estimate is the least number that is no less than the tokens and no less than a quarter of the length. */
  lemma EstimateIsLeast(text: Text, k: nat)
    ensures Estimate(text) <= k <==> Tokens(text) <= k && |text| <= 4 * k
  {
  }

  ghost predicate FollowsWord(text: Text, i: nat)
    requires i < |text|
  {
    i > 0 && text[i - 1].kind == Word
  }

  /** The places where a token starts: a mark, or a word character that follows none. */
  ghost function TokenStarts(text: Text): set<int> {
    set i | 0 <= i < |text| && (text[i].kind == Mark || (text[i].kind == Word && !FollowsWord(text, i)))
  }

  lemma {:induction false} TokensAreStarts(text: Text)
    ensures Tokens(text) == |TokenStarts(text)|
    decreases |text|
  {
    if text != [] {
      var n := |text| - 1;
      TokensAreStarts(text[..n]);
      assert TokenStarts(text) == TokenStarts(text[..n]) + if StartsToken(text, n) then {n} else {};
    }
  }

  /** Tokens cannot get fewer as the text goes on, and one character adds at most one. */
  lemma {:induction false} EstimateGrows(text: Text, i: nat, j: nat)
    requires i <= j <= |text|
    ensures Estimate(text[..i]) <= Estimate(text[..j]) <= Estimate(text[..i]) + (j - i)
    decreases j
  {
    if i < j {
      EstimateGrows(text, i, j - 1);
      assert text[..j][..j - 1] == text[..j - 1];
    }
  }

  /** Scans the way the regular expression matches: a whole run of word characters at once. */
  method CountTokens(text: Text) returns (count: nat)
    ensures count == Tokens(text)
  {
    count := 0;
    var i := 0;
    while i < |text|
      invariant 0 <= i <= |text| && count == Tokens(text[..i])
      invariant i < |text| && i > 0 && text[i].kind == Word ==> text[i - 1].kind != Word
    {
      var start := i;
      if text[i].kind != Space { count := count + 1; }
      i := i + 1;
      assert text[..i][..start] == text[..start];
      if text[start].kind == Word {
        while i < |text| && text[i].kind == Word
          invariant start < i <= |text| && text[i - 1].kind == Word && count == Tokens(text[..i])
        {
          i := i + 1;
          assert text[..i][..i - 1] == text[..i - 1];
        }
      }
    }
    assert text[..i] == text;
  }

  method EstimateTokens(text: Text) returns (estimate: nat)
    ensures estimate == Estimate(text)
  {
    var words := CountTokens(text);
    var quarters := (|text| + 3) / 4;
    return if words > quarters then words else quarters;
  }

  function Stripped(text: Text): Text
    decreases |text|
  {
    if text != [] && text[|text| - 1].kind == Space then Stripped(text[..|text| - 1]) else text
  }

  lemma {:induction false} StrippedIsPrefix(text: Text)
    ensures Stripped(text) <= text
    ensures Stripped(text) != [] ==> Stripped(text)[|Stripped(text)| - 1].kind != Space
    ensures forall i :: |Stripped(text)| <= i < |text| ==> text[i].kind == Space
    decreases |text|
  {
    if text != [] && text[|text| - 1].kind == Space {
      StrippedIsPrefix(text[..|text| - 1]);
    }
  }

  /** The length of the longest prefix that fits, by shortening one character at a time. */
  function LongestFit(text: Text, tokens: nat): (n: nat)
    ensures n <= |text|
    decreases |text|
  {
    if Estimate(text) <= tokens || text == [] then |text| else LongestFit(text[..|text| - 1], tokens)
  }

  /** It fits, and nothing longer does. */
  lemma {:induction false} LongestFits(text: Text, tokens: nat)
    ensures Estimate(text[..LongestFit(text, tokens)]) <= tokens
    ensures forall n :: LongestFit(text, tokens) < n <= |text| ==> Estimate(text[..n]) > tokens
    decreases |text|
  {
    assert text[..|text|] == text;
    if Estimate(text) > tokens && text != [] {
      var shorter := text[..|text| - 1];
      LongestFits(shorter, tokens);
      forall n | 0 <= n < |text| ensures shorter[..n] == text[..n] {}
    }
  }

  function Truncated(text: Text, tokens: int): Text {
    if tokens <= 0 then [] else Stripped(text[..LongestFit(text, tokens)])
  }

  /** The binary search finds the longest prefix that fits. Capping it at four characters a token loses
      nothing, since a longer prefix is estimated too long for its length alone. */
  method TruncateTokens(text: Text, tokens: int) returns (truncated: Text)
    ensures truncated == Truncated(text, tokens)
  {
    if tokens <= 0 { return []; }
    var low, high := 0, if |text| < tokens * 4 then |text| else tokens * 4;
    assert Estimate(text[..0]) == 0;
    while low < high
      invariant 0 <= low <= high <= |text|
      invariant Estimate(text[..low]) <= tokens
      invariant forall n :: high < n <= |text| ==> Estimate(text[..n]) > tokens
      decreases high - low
    {
      var middle := (low + high + 1) / 2;
      var estimate := EstimateTokens(text[..middle]);
      if estimate <= tokens {
        low := middle;
      } else {
        forall n | middle <= n <= |text| ensures Estimate(text[..n]) > tokens {
          EstimateGrows(text, middle, n);
        }
        high := middle - 1;
      }
    }
    LongestFits(text, tokens);
    assert low == LongestFit(text, tokens);
    truncated := Strip(text[..low]);
  }

  method Strip(text: Text) returns (stripped: Text)
    ensures stripped == Stripped(text)
  {
    var n := |text|;
    assert text[..n] == text;
    while n > 0 && text[n - 1].kind == Space
      invariant 0 <= n <= |text| && Stripped(text) == Stripped(text[..n])
    {
      assert text[..n][..n - 1] == text[..n - 1];
      n := n - 1;
    }
    return text[..n];
  }

  /** Whatever is cut off, the rest fits. */
  lemma TruncatedFits(text: Text, tokens: int)
    requires tokens >= 0
    ensures Truncated(text, tokens) <= text && Estimate(Truncated(text, tokens)) <= tokens
  {
    if tokens > 0 {
      var n := LongestFit(text, tokens);
      LongestFits(text, tokens);
      StrippedIsPrefix(text[..n]);
      var stripped := Stripped(text[..n]);
      EstimateGrows(text[..n], |stripped|, n);
      assert text[..n][..n] == text[..n] && text[..n][..|stripped|] == stripped;
    }
  }

  /** A content that starts with something to see keeps at least that. */
  lemma TruncatedNonempty(text: Text, tokens: int)
    requires text != [] && text[0].kind != Space && tokens > 0
    ensures Truncated(text, tokens) != []
  {
    LongestFits(text, tokens);
    assert text[..1][..0] == [] && Tokens(text[..1]) == 1;
    assert Estimate(text[..1]) == 1;
    var n := LongestFit(text, tokens);
    StrippedIsPrefix(text[..n]);
  }

  // ---- The envelope ----

  datatype Passage = Passage(text: Text)

  function Cost(p: Passage): nat {
    Estimate(p.text)
  }

  /** What one hit contributes with `remaining` tokens left; an empty content ends the envelope. */
  function Content(hit: Passage, remaining: nat): (content: Passage)
    ensures content.text <= hit.text && Cost(content) <= remaining
  {
    TruncatedFits(hit.text, remaining);
    if Cost(hit) > remaining then Passage(Truncated(hit.text, remaining)) else hit
  }

  predicate Empty(p: Passage) {
    p.text == []
  }

  /** How the envelope loop sees its contents. */
  datatype Meter = Meter(cost: Passage -> nat, fit: (Passage, nat) -> Passage, empty: Passage -> bool)

  const TOKENS := Meter(Cost, Content, Empty)

  function After(m: Meter, content: Passage, remaining: nat): nat {
    if m.cost(content) < remaining then remaining - m.cost(content) else 0
  }

  /** The contexts of the hits under a budget: empty hits are passed over, the rest is taken in order. */
  function Gather(m: Meter, hits: seq<Passage>, remaining: nat): seq<Passage>
    decreases |hits|
  {
    if hits == [] || remaining == 0 then []
    else if m.empty(hits[0]) then Gather(m, hits[1..], remaining)
    else
      var content := m.fit(hits[0], remaining);
      if m.empty(content) then [] else [content] + Gather(m, hits[1..], After(m, content, remaining))
  }

  function TotalCost(m: Meter, contexts: seq<Passage>): nat
    decreases |contexts|
  {
    if contexts == [] then 0 else m.cost(contexts[0]) + TotalCost(m, contexts[1..])
  }

  /** Whether a hit has to be cut to the tokens that are left, which is warned about. */
  predicate Cuts(m: Meter, hits: seq<Passage>, remaining: nat)
    decreases |hits|
  {
    if hits == [] || remaining == 0 then false
    else if m.empty(hits[0]) then Cuts(m, hits[1..], remaining)
    else m.cost(hits[0]) > remaining || Cuts(m, hits[1..], After(m, m.fit(hits[0], remaining), remaining))
  }

  ghost predicate StartOf(context: Passage, hit: Passage) {
    context.text <= hit.text
  }

  /** Fitting cuts to what is left, leaves what fits whole, and whatever is not empty costs something. */
  ghost predicate Sound(m: Meter) {
    && (forall hit, left :: m.cost(m.fit(hit, left)) <= left && StartOf(m.fit(hit, left), hit))
    && (forall hit, left :: m.cost(hit) <= left ==> m.fit(hit, left) == hit)
    && (forall hit :: !m.empty(hit) ==> m.cost(hit) > 0)
  }

  lemma TokensSound()
    ensures Sound(TOKENS)
  {
  }

  lemma TotalFirst(m: Meter, content: Passage, rest: seq<Passage>)
    ensures TotalCost(m, [content] + rest) == m.cost(content) + TotalCost(m, rest)
  {
    assert ([content] + rest)[1..] == rest;
  }

  lemma {:induction false} TotalAppend(m: Meter, contexts: seq<Passage>, content: Passage)
    ensures TotalCost(m, contexts + [content]) == TotalCost(m, contexts) + m.cost(content)
    decreases |contexts|
  {
    if contexts == [] {
      assert [] + [content] == [content];
    } else {
      assert (contexts + [content])[1..] == contexts[1..] + [content];
      TotalAppend(m, contexts[1..], content);
    }
  }

  /** Contexts never cost more than the budget. */
  lemma {:induction false} GatherWithinBudget(m: Meter, hits: seq<Passage>, remaining: nat)
    requires Sound(m)
    ensures TotalCost(m, Gather(m, hits, remaining)) <= remaining && |Gather(m, hits, remaining)| <= |hits|
    decreases |hits|
  {
    if hits != [] && remaining > 0 {
      if m.empty(hits[0]) {
        GatherWithinBudget(m, hits[1..], remaining);
      } else {
        var content := m.fit(hits[0], remaining);
        GatherWithinBudget(m, hits[1..], After(m, content, remaining));
        TotalFirst(m, content, Gather(m, hits[1..], After(m, content, remaining)));
      }
    }
  }

  /** Every context is the start of a hit, and they keep the order of the hits. */
  lemma {:induction false} GatherFromHits(m: Meter, hits: seq<Passage>, remaining: nat, k: nat) returns (i: nat)
    requires Sound(m) && k < |Gather(m, hits, remaining)|
    ensures k <= i < |hits|
    ensures StartOf(Gather(m, hits, remaining)[k], hits[i]) && !m.empty(Gather(m, hits, remaining)[k])
    decreases |hits|
  {
    if m.empty(hits[0]) {
      i := GatherFromHits(m, hits[1..], remaining, k);
      i := i + 1;
    } else if k == 0 {
      i := 0;
    } else {
      i := GatherFromHits(m, hits[1..], After(m, m.fit(hits[0], remaining), remaining), k - 1);
      i := i + 1;
    }
  }

  /** The hits that have something to show. */
  function Shown(m: Meter, hits: seq<Passage>): seq<Passage>
    decreases |hits|
  {
    if hits == [] then []
    else if m.empty(hits[0]) then Shown(m, hits[1..])
    else [hits[0]] + Shown(m, hits[1..])
  }

  /** Hits that all fit are all kept, whole. */
  lemma {:induction false} GatherKeepsWhatFits(m: Meter, hits: seq<Passage>, remaining: nat)
    requires Sound(m) && TotalCost(m, Shown(m, hits)) <= remaining
    ensures Gather(m, hits, remaining) == Shown(m, hits) && !Cuts(m, hits, remaining)
    decreases |hits|
  {
    if hits != [] {
      if m.empty(hits[0]) {
        GatherKeepsWhatFits(m, hits[1..], remaining);
      } else {
        TotalFirst(m, hits[0], Shown(m, hits[1..]));
        GatherKeepsWhatFits(m, hits[1..], After(m, hits[0], remaining));
      }
    }
  }

  /** What is shown is what has a text. */
  lemma {:induction false} ShownHaveTexts(hits: seq<Passage>, p: Passage)
    ensures p in Shown(TOKENS, hits) <==> p in hits && p.text != []
    decreases |hits|
  {
    if hits != [] {
      ShownHaveTexts(hits[1..], p);
      assert hits == [hits[0]] + hits[1..];
    }
  }

  /** Contents that stay visible whatever is cut. */
  ghost predicate Lasting(m: Meter, hit: Passage) {
    forall left: nat :: left > 0 && !m.empty(hit) ==> !m.empty(m.fit(hit, left))
  }

  /** Stripped of leading whitespace. */
  predicate StartsVisibly(hit: Passage) {
    hit.text != [] ==> hit.text[0].kind != Space
  }

  lemma VisibleLasts(hit: Passage)
    requires StartsVisibly(hit)
    ensures Lasting(TOKENS, hit)
  {
    forall left: nat | left > 0 && !TOKENS.empty(hit) ensures !TOKENS.empty(TOKENS.fit(hit, left)) {
      TruncatedNonempty(hit.text, left);
    }
  }

  /** With lasting contents, a hit is left out only when the budget is spent to the last token. */
  lemma {:induction false} GatherSpendsBudget(m: Meter, hits: seq<Passage>, remaining: nat)
    requires Sound(m) && forall i :: 0 <= i < |hits| ==> Lasting(m, hits[i])
    ensures |Gather(m, hits, remaining)| == |Shown(m, hits)| || TotalCost(m, Gather(m, hits, remaining)) == remaining
    decreases |hits|
  {
    if hits != [] && remaining > 0 {
      if m.empty(hits[0]) {
        GatherSpendsBudget(m, hits[1..], remaining);
      } else {
        assert Lasting(m, hits[0]);
        var content := m.fit(hits[0], remaining);
        GatherSpendsBudget(m, hits[1..], After(m, content, remaining));
        TotalFirst(m, content, Gather(m, hits[1..], After(m, content, remaining)));
      }
    }
  }

  /** Cutting is warned about exactly if some context is not the whole of its hit. */
  lemma {:induction false} CutsExactly(m: Meter, hits: seq<Passage>, remaining: nat)
    requires Sound(m) && forall i :: 0 <= i < |hits| ==> Lasting(m, hits[i])
    ensures Cuts(m, hits, remaining) <==> !(Gather(m, hits, remaining) <= Shown(m, hits))
    decreases |hits|
  {
    if hits != [] && remaining > 0 {
      if m.empty(hits[0]) {
        CutsExactly(m, hits[1..], remaining);
      } else {
        assert Lasting(m, hits[0]);
        var content := m.fit(hits[0], remaining);
        var rest, shown := Gather(m, hits[1..], After(m, content, remaining)), Shown(m, hits[1..]);
        CutsExactly(m, hits[1..], After(m, content, remaining));
        assert ([content] + rest)[0] == content && ([hits[0]] + shown)[0] == hits[0];
        assert ([content] + rest)[1..] == rest && ([hits[0]] + shown)[1..] == shown;
        if content == hits[0] && rest <= shown { assert [content] + rest <= [hits[0]] + shown; }
        if [content] + rest <= [hits[0]] + shown {
          assert ([hits[0]] + shown)[..|rest| + 1] == [content] + rest;
          assert shown[..|rest|] == ([hits[0]] + shown)[..|rest| + 1][1..];
        }
      }
    }
  }

  /** The envelope loop before hit `i`. */
  ghost predicate Spending(m: Meter, taken: seq<Passage>, budget: nat, i: nat, contexts: seq<Passage>, remaining: nat,
                           truncated: bool)
  {
    && i <= |taken| && remaining <= budget
    && TotalCost(m, contexts) == budget - remaining && |contexts| <= i
    && Gather(m, taken, budget) == contexts + Gather(m, taken[i..], remaining)
    && Cuts(m, taken, budget) == (truncated || Cuts(m, taken[i..], remaining))
  }

  /** An empty hit is passed over. */
  lemma PassOver(m: Meter, taken: seq<Passage>, budget: nat, i: nat, contexts: seq<Passage>, remaining: nat,
                 truncated: bool)
    requires Spending(m, taken, budget, i, contexts, remaining, truncated)
    requires i < |taken| && remaining > 0 && m.empty(taken[i])
    ensures Spending(m, taken, budget, i + 1, contexts, remaining, truncated)
  {
    assert taken[i..][1..] == taken[i + 1..];
  }

  /** Any other hit is fitted; if nothing of it is left, the envelope is complete. */
  lemma TakeIn(m: Meter, taken: seq<Passage>, budget: nat, i: nat, contexts: seq<Passage>, remaining: nat,
               truncated: bool)
    requires Sound(m) && Spending(m, taken, budget, i, contexts, remaining, truncated)
    requires i < |taken| && remaining > 0 && !m.empty(taken[i])
    ensures var content, cut := m.fit(taken[i], remaining), truncated || m.cost(taken[i]) > remaining;
            if m.empty(content) then Gather(m, taken, budget) == contexts && Cuts(m, taken, budget) == cut == true
            else Spending(m, taken, budget, i + 1, contexts + [content], After(m, content, remaining), cut)
  {
    var content := m.fit(taken[i], remaining);
    assert taken[i..][1..] == taken[i + 1..];
    TotalAppend(m, contexts, content);
    if !m.empty(content) {
      var rest := Gather(m, taken[i + 1..], After(m, content, remaining));
      assert contexts + ([content] + rest) == contexts + [content] + rest;
    } else {
      assert m.cost(taken[i]) > remaining;
    }
  }

  /** Goes over the first `maxResults` hits until the budget is spent. */
  method Spend(m: Meter, hits: seq<Passage>, maxResults: nat, maxTokens: nat)
    returns (contexts: seq<Passage>, used: nat, remaining: nat, truncated: bool)
    requires Sound(m) && maxTokens > 0
    ensures var taken := if |hits| < maxResults then hits else hits[..maxResults];
            contexts == Gather(m, taken, maxTokens) && truncated == Cuts(m, taken, maxTokens)
    ensures used + remaining == maxTokens && used == TotalCost(m, contexts) && |contexts| <= maxResults
  {
    var taken := if |hits| < maxResults then hits else hits[..maxResults];
    contexts, used, remaining, truncated := [], 0, maxTokens, false;
    var i := 0;
    assert taken[0..] == taken;
    while i < |taken|
      invariant Spending(m, taken, maxTokens, i, contexts, remaining, truncated)
      invariant used + remaining == maxTokens && remaining > 0
      decreases |taken| - i
    {
      var content := taken[i];
      if m.empty(content) {
        PassOver(m, taken, maxTokens, i, contexts, remaining, truncated);
        i := i + 1;
        continue;
      }
      TakeIn(m, taken, maxTokens, i, contexts, remaining, truncated);
      var estimate := m.cost(content);
      if estimate > remaining {
        content := m.fit(content, remaining);
        estimate, truncated := m.cost(content), true;
      }
      i := i + 1;
      if m.empty(content) { break; }
      contexts, remaining, used := contexts + [content], remaining - estimate, used + estimate;
      if remaining == 0 { break; }
    }
  }

  /** The evidence of a response: at most `maxTokens` by estimate in all and less only when no hit was left
      out, and the hits unchanged if they all fit. */
  method Envelope(hits: seq<Passage>, maxResults: nat, maxTokens: nat)
    returns (contexts: seq<Passage>, used: nat, truncated: bool)
    requires maxTokens > 0 && forall i :: 0 <= i < |hits| ==> StartsVisibly(hits[i])
    ensures var taken := if |hits| < maxResults then hits else hits[..maxResults];
            && contexts == Gather(TOKENS, taken, maxTokens)
            && used == TotalCost(TOKENS, contexts) <= maxTokens && |contexts| <= maxResults
            && (used < maxTokens ==> |contexts| == |Shown(TOKENS, taken)|)
            && (TotalCost(TOKENS, Shown(TOKENS, taken)) <= maxTokens ==>
                  contexts == Shown(TOKENS, taken) && !truncated)
            && (truncated <==> !(contexts <= Shown(TOKENS, taken)))
  {
    var remaining;
    TokensSound();
    forall i | 0 <= i < |hits| ensures Lasting(TOKENS, hits[i]) { VisibleLasts(hits[i]); }
    contexts, used, remaining, truncated := Spend(TOKENS, hits, maxResults, maxTokens);
    ghost var taken := if |hits| < maxResults then hits else hits[..maxResults];
    GatherSpendsBudget(TOKENS, taken, maxTokens);
    GatherWithinBudget(TOKENS, taken, maxTokens);
    CutsExactly(TOKENS, taken, maxTokens);
    if TotalCost(TOKENS, Shown(TOKENS, taken)) <= maxTokens { GatherKeepsWhatFits(TOKENS, taken, maxTokens); }
  }
}
