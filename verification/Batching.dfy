/** Packing embedding inputs into requests (embedding/_batching.py). */
module Batching {
  import opened Text

  datatype Caps = Caps(maxItems: int, maxTokens: int, maxChars: nat)

  const CHARS_PER_TOKEN := 4

  function EstimateTokens(text: string): nat {
    if |text| / CHARS_PER_TOKEN > 1 then |text| / CHARS_PER_TOKEN else 1
  }

  function Tokens(batch: seq<string>): nat {
    if batch == [] then 0 else EstimateTokens(batch[0]) + Tokens(batch[1..])
  }

  function Truncate(raw: string, caps: Caps): string {
    if |raw| > caps.maxChars then raw[..caps.maxChars] else raw
  }

  function TruncateAll(texts: seq<string>, caps: Caps): seq<string> {
    seq(|texts|, i requires 0 <= i < |texts| => Truncate(texts[i], caps))
  }

  /** Truncation keeps the first characters, as many as are allowed. */
  lemma TruncationCuts(raw: string, caps: Caps)
    ensures Truncate(raw, caps) <= raw
    ensures |Truncate(raw, caps)| == if |raw| < caps.maxChars then |raw| else caps.maxChars
  {}

  /** An estimate is a quarter of the length, rounded down, and at least one. */
  lemma EstimateIsAQuarter(text: string)
    ensures var n := EstimateTokens(text); n >= 1 && |text| < 4 * n + 4 && (n > 1 ==> 4 * n <= |text|)
  {}

  /** Within both request caps. */
  predicate Feasible(batch: seq<string>, caps: Caps) {
    |batch| <= caps.maxItems && Tokens(batch) <= caps.maxTokens
  }

  /** Within both caps, or a single input that no splitting could make smaller. */
  predicate Acceptable(batch: seq<string>, caps: Caps) { |batch| <= 1 || Feasible(batch, caps) }

  ghost predicate SplitsInto(items: seq<string>, batches: seq<seq<string>>, caps: Caps) {
    && Flatten(batches) == items
    && forall i :: 0 <= i < |batches| ==> Acceptable(batches[i], caps)
  }

  /** No batch could have taken the first input of the next one as well. */
  ghost predicate Maximal(batches: seq<seq<string>>, caps: Caps) {
    && (forall i :: 0 <= i < |batches| ==> batches[i] != [])
    && (forall i :: 0 <= i < |batches| - 1 ==> !Acceptable(batches[i] + [batches[i + 1][0]], caps))
  }

  lemma {:induction false} TokensAppend(a: seq<string>, b: seq<string>)
    ensures Tokens(a + b) == Tokens(a) + Tokens(b)
  {
    if a == [] {
      assert a + b == b;
    } else {
      assert (a + b)[1..] == a[1..] + b;
      TokensAppend(a[1..], b);
    }
  }

  lemma SegmentAcceptable(batch: seq<string>, lo: nat, hi: nat, caps: Caps)
    requires lo <= hi <= |batch| && Acceptable(batch, caps)
    ensures Acceptable(batch[lo..hi], caps)
  {
    assert batch == batch[..lo] + batch[lo..hi] + batch[hi..];
    TokensAppend(batch[..lo] + batch[lo..hi], batch[hi..]);
    TokensAppend(batch[..lo], batch[lo..hi]);
  }

  /** Greedy stays ahead: packing a suffix of what `alt` splits never takes more batches. */
  lemma {:induction false} GreedyStaysAhead(greedy: seq<seq<string>>, alt: seq<seq<string>>, skip: nat, caps: Caps)
    requires Maximal(greedy, caps)
    requires forall i :: 0 <= i < |alt| ==> Acceptable(alt[i], caps)
    requires skip <= |Flatten(alt)| && Flatten(greedy) == Flatten(alt)[skip..]
    ensures |greedy| <= |alt|
    decreases |alt|
  {
    assert greedy != [] ==> |Flatten(greedy)| >= |greedy[0]| > 0;
    if greedy != [] && alt != [] {
      var rest := Flatten(alt[1..]);
      var first := |alt[0]|;
      assert Flatten(alt) == alt[0] + rest;
      if skip >= first {
        assert rest[skip - first..] == Flatten(alt)[skip..];
        GreedyStaysAhead(greedy, alt[1..], skip - first, caps);
      } else if |greedy| > 1 {
        var size := |greedy[0]|;
        var tail := Flatten(greedy[1..]);
        assert Flatten(greedy) == greedy[0] + tail;
        assert tail[0] == greedy[1][0];
        if size < first - skip {
          var segment := Flatten(greedy)[..size + 1];
          assert segment == greedy[0] + [greedy[1][0]];
          assert segment == Flatten(alt)[skip..skip + size + 1] == alt[0][skip..skip + size + 1];
          SegmentAcceptable(alt[0], skip, skip + size + 1, caps);
          assert false;
        }
        var ahead := size - (first - skip);
        assert rest[ahead..] == tail by {
          assert Flatten(alt)[skip..][size..] == Flatten(alt)[skip + size..] == rest[ahead..];
        }
        GreedyStaysAhead(greedy[1..], alt[1..], ahead, caps);
      }
    }
  }

  lemma MaximalTakes(batches: seq<seq<string>>, batch: seq<string>, text: string, caps: Caps)
    requires Maximal(batches + [batch], caps)
    ensures Maximal(batches + [batch + [text]], caps)
  {
    var before, grown := batches + [batch], batches + [batch + [text]];
    assert before[|batches|] == batch;
    forall i | 0 <= i < |batches| ensures grown[i + 1] != [] && !Acceptable(batches[i] + [grown[i + 1][0]], caps) {
      assert before[i] == batches[i] && before[i + 1] != [] && before[i + 1][0] == grown[i + 1][0];
    }
  }

  lemma MaximalCloses(batches: seq<seq<string>>, batch: seq<string>, text: string, caps: Caps)
    requires Maximal(batches + [batch], caps) && !Acceptable(batch + [text], caps)
    ensures Maximal(batches + [batch] + [[text]], caps)
  {
    var before, closed := batches + [batch], batches + [batch] + [[text]];
    assert before[|batches|] == batch && closed[|batches| + 1] == [text];
    forall i | 0 <= i < |batches| ensures closed[i + 1] != [] && !Acceptable(batches[i] + [closed[i + 1][0]], caps) {
      assert before[i] == batches[i] && before[i + 1] != [] && before[i + 1] == closed[i + 1];
    }
  }

  lemma MaximalGrows(batches: seq<seq<string>>, batch: seq<string>, text: string, caps: Caps)
    requires Maximal(batches + [batch], caps)
    ensures Maximal(batches + [batch + [text]], caps)
    ensures !Acceptable(batch + [text], caps) ==> Maximal(batches + [batch] + [[text]], caps)
  {
    MaximalTakes(batches, batch, text, caps);
    if !Acceptable(batch + [text], caps) {
      MaximalCloses(batches, batch, text, caps);
    }
  }

  /** The loop's state once `items` have been packed: closed batches and the open one. */
  ghost predicate Packing(batches: seq<seq<string>>, batch: seq<string>, tokens: nat, items: seq<string>, caps: Caps) {
    && tokens == Tokens(batch) && Flatten(batches) + batch == items
    && (batch == [] ==> batches == [])
    && (forall j :: 0 <= j < |batches| ==> Acceptable(batches[j], caps)) && Acceptable(batch, caps)
    && (batch != [] ==> Maximal(batches + [batch], caps))
  }

  predicate IsFull(batch: seq<string>, tokens: nat, cost: nat, caps: Caps) {
    batch != [] && (|batch| >= caps.maxItems || tokens + cost > caps.maxTokens)
  }

  lemma PackingTakes(batches: seq<seq<string>>, batch: seq<string>, tokens: nat, items: seq<string>, text: string,
                     caps: Caps)
    requires Packing(batches, batch, tokens, items, caps) && !IsFull(batch, tokens, EstimateTokens(text), caps)
    ensures Packing(batches, batch + [text], tokens + EstimateTokens(text), items + [text], caps)
  {
    TokensAppend(batch, [text]);
    if batch != [] {
      MaximalGrows(batches, batch, text, caps);
    }
    assert Flatten(batches) + (batch + [text]) == items + [text];
  }

  lemma PackingCloses(batches: seq<seq<string>>, batch: seq<string>, tokens: nat, items: seq<string>, text: string,
                      caps: Caps)
    requires Packing(batches, batch, tokens, items, caps) && IsFull(batch, tokens, EstimateTokens(text), caps)
    ensures Packing(batches + [batch], [text], EstimateTokens(text), items + [text], caps)
  {
    TokensAppend(batch, [text]);
    MaximalGrows(batches, batch, text, caps);
    FlattenSnoc(batches, batch);
    assert Tokens([text]) == EstimateTokens(text) + Tokens([]);
  }

  lemma PackingDone(batches: seq<seq<string>>, batch: seq<string>, tokens: nat, items: seq<string>, caps: Caps)
    requires Packing(batches, batch, tokens, items, caps)
    ensures var all := if batch == [] then batches else batches + [batch];
            && SplitsInto(items, all, caps) && Maximal(all, caps)
            && forall alt :: SplitsInto(items, alt, caps) ==> |all| <= |alt|
  {
    var all := if batch == [] then batches else batches + [batch];
    if batch != [] {
      FlattenSnoc(batches, batch);
    }
    forall alt | SplitsInto(items, alt, caps) ensures |all| <= |alt| {
      GreedyStaysAhead(all, alt, 0, caps);
    }
  }

  method PrepareBatches(texts: seq<string>, caps: Caps) returns (batches: seq<seq<string>>)
    ensures SplitsInto(TruncateAll(texts, caps), batches, caps)
    ensures Maximal(batches, caps)
    ensures forall alt :: SplitsInto(TruncateAll(texts, caps), alt, caps) ==> |batches| <= |alt|
  {
    batches := [];
    var batch: seq<string>, tokens: nat := [], 0;
    for i := 0 to |texts|
      invariant Packing(batches, batch, tokens, TruncateAll(texts[..i], caps), caps)
    {
      var text := if |texts[i]| > caps.maxChars then texts[i][..caps.maxChars] else texts[i];
      var cost := EstimateTokens(text);
      assert TruncateAll(texts[..i + 1], caps) == TruncateAll(texts[..i], caps) + [text];
      if batch != [] && (|batch| >= caps.maxItems || tokens + cost > caps.maxTokens) {
        PackingCloses(batches, batch, tokens, TruncateAll(texts[..i], caps), text, caps);
        batches := batches + [batch];
        batch, tokens := [], 0;
        assert [] + [text] == [text];
      } else {
        PackingTakes(batches, batch, tokens, TruncateAll(texts[..i], caps), text, caps);
      }
      batch := batch + [text];
      tokens := tokens + cost;
    }
    assert texts[..|texts|] == texts;
    PackingDone(batches, batch, tokens, TruncateAll(texts, caps), caps);
    if batch != [] {
      batches := batches + [batch];
    }
  }

  lemma {:induction false} EachItemIn(batches: seq<seq<string>>, i: nat, k: nat)
    requires i < |batches| && k < |batches[i]|
    ensures batches[i][k] in Flatten(batches)
  {
    if i == 0 {
    } else {
      EachItemIn(batches[1..], i - 1, k);
    }
  }

  lemma {:induction false} EachItemFrom(batches: seq<seq<string>>, x: string)
    requires x in Flatten(batches)
    ensures exists i, k :: 0 <= i < |batches| && 0 <= k < |batches[i]| && batches[i][k] == x
  {
    if x in batches[0] {
      var k :| 0 <= k < |batches[0]| && batches[0][k] == x;
    } else {
      EachItemFrom(batches[1..], x);
      var i, k :| 0 <= i < |batches[1..]| && 0 <= k < |batches[1..][i]| && batches[1..][i][k] == x;
      assert batches[i + 1][k] == x;
    }
  }

  /** With a positive item cap, every request is within both caps exactly when every truncated
      input is within the token cap on its own. */
  lemma CapsHoldIffEachInputFits(items: seq<string>, batches: seq<seq<string>>, caps: Caps)
    requires SplitsInto(items, batches, caps) && caps.maxItems >= 1
    requires forall i :: 0 <= i < |batches| ==> batches[i] != []
    ensures (forall i :: 0 <= i < |batches| ==> Feasible(batches[i], caps))
       <==> (forall x :: x in items ==> EstimateTokens(x) <= caps.maxTokens)
  {
    if forall x :: x in items ==> EstimateTokens(x) <= caps.maxTokens {
      forall i | 0 <= i < |batches| ensures Feasible(batches[i], caps) {
        EachItemIn(batches, i, 0);
        if |batches[i]| == 1 {
          assert Tokens(batches[i]) == EstimateTokens(batches[i][0]) + Tokens(batches[i][1..]);
        }
      }
    }
    if forall i :: 0 <= i < |batches| ==> Feasible(batches[i], caps) {
      forall x | x in items ensures EstimateTokens(x) <= caps.maxTokens {
        EachItemFrom(batches, x);
        var i, k :| 0 <= i < |batches| && 0 <= k < |batches[i]| && batches[i][k] == x;
        var b := batches[i];
        assert b == b[..k] + [x] + b[k + 1..];
        TokensAppend(b[..k] + [x], b[k + 1..]);
        TokensAppend(b[..k], [x]);
        assert Tokens([x]) == EstimateTokens(x) + Tokens([]);
        assert Feasible(b, caps);
      }
    }
  }

  /** The documented condition divides exactly, the estimate of an input rounds down: the former
      implies the integer form, which implies it up to three characters. */
  lemma DocumentedDivision(caps: Caps)
    ensures (caps.maxChars as real) / 4.0 <= caps.maxTokens as real ==>
            caps.maxChars / CHARS_PER_TOKEN <= caps.maxTokens
    ensures caps.maxChars / CHARS_PER_TOKEN <= caps.maxTokens ==> caps.maxChars <= 4 * caps.maxTokens + 3
  {
    if (caps.maxChars as real) / 4.0 <= caps.maxTokens as real {
      assert caps.maxChars as real <= 4.0 * (caps.maxTokens as real);
    }
  }

  ghost predicate EveryInputFits(caps: Caps) { forall raw :: EstimateTokens(Truncate(raw, caps)) <= caps.maxTokens }

  /** The limits that make every truncated input fit, exactly. Under the documented condition,
      `max_chars / 4 <= max_tokens`, that is room for one token: even the empty input counts as one. */
  lemma DocumentedLimitsSuffice(caps: Caps)
    ensures EveryInputFits(caps) <==> caps.maxTokens >= 1 && caps.maxChars / CHARS_PER_TOKEN <= caps.maxTokens
    ensures (caps.maxChars as real) / 4.0 <= caps.maxTokens as real ==> (EveryInputFits(caps) <==> caps.maxTokens >= 1)
    ensures EveryInputFits(caps) ==> caps.maxChars <= 4 * caps.maxTokens + 3
  {
    DocumentedDivision(caps);
    if caps.maxTokens >= 1 && caps.maxChars / CHARS_PER_TOKEN <= caps.maxTokens {
      forall raw ensures EstimateTokens(Truncate(raw, caps)) <= caps.maxTokens {
        assert |Truncate(raw, caps)| <= caps.maxChars;
      }
    } else {
      var longest := seq(caps.maxChars, i => 'x');
      assert Truncate(longest, caps) == longest && Truncate("", caps) == "";
      assert EstimateTokens(Truncate(longest, caps)) > caps.maxTokens ||
        EstimateTokens(Truncate("", caps)) > caps.maxTokens;
    }
  }

}
