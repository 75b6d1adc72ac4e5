/** `parse_answer` (utils.py): turn an oracle's raw reply into a dictionary,
    or into nothing when the reply holds no usable dictionary. */
module AnswerParser {
  import opened Timeline
  import opened PyStr

  /** The marker that closes a reasoning block in a reply. */
  const ThinkEnd: string := "</think>"

  predicate IsBrace(c: char) { c == '{' || c == '}' }

  /** `s[a..b+1]` matches the pattern `\{[^{}]*\}`: it opens with `{`, closes
      with `}` and has no brace in between. */
  ghost predicate IsBlock(s: string, a: int, b: int) {
    0 <= a < b < |s| && s[a] == '{' && s[b] == '}' &&
    forall k :: a < k < b ==> !IsBrace(s[k])
  }

  ghost predicate HasBlock(s: string) {
    exists a, b :: IsBlock(s, a, b)
  }

  /** The block at `(a, b)` is the one that starts last. */
  ghost predicate IsLastBlock(s: string, a: int, b: int) {
    IsBlock(s, a, b) && forall a', b' :: IsBlock(s, a', b') ==> a' <= a
  }

  /** The first brace at or after `i`, or `|s|` when there is none. */
  function NextBrace(s: string, i: nat): (k: nat)
    requires i <= |s|
    decreases |s| - i
    ensures i <= k <= |s|
    ensures forall m :: i <= m < k ==> !IsBrace(s[m])
    ensures k < |s| ==> IsBrace(s[k])
  {
    if i == |s| || IsBrace(s[i]) then i else NextBrace(s, i + 1)
  }

  /** At a `{`, the one block that can start there ends at the next brace,
      and no block starts between the two. */
  lemma BlockAt(s: string, i: nat, k: nat)
    requires i < |s| && s[i] == '{' && k == NextBrace(s, i + 1)
    ensures forall b :: IsBlock(s, i, b) <==> k < |s| && s[k] == '}' && b == k
    ensures k < |s| && s[k] == '}' ==> forall a, b :: i < a <= k ==> !IsBlock(s, a, b)
  {
  }

  /** `re.findall(r'\{[^{}]*\}', s)` from position `i`, as pairs of the
      first and last index of each match: at a `{` the greedy class runs to
      the next brace, and the match succeeds exactly when that brace is `}`. */
  function FindAll(s: string, i: nat): (ms: seq<(nat, nat)>)
    requires i <= |s|
    decreases |s| - i
    ensures forall x :: 0 <= x < |ms| ==> i <= ms[x].0 && IsBlock(s, ms[x].0, ms[x].1)
    ensures forall a, b :: i <= a && IsBlock(s, a, b) ==> (a, b) in ms
    ensures forall x, y :: 0 <= x < y < |ms| ==> ms[x].1 < ms[y].0
  {
    if i == |s| then []
    else if s[i] == '{' then
      var k := NextBrace(s, i + 1);
      BlockAt(s, i, k);
      if k < |s| && s[k] == '}' then
        [(i, k)] + FindAll(s, k + 1)
      else
        FindAll(s, i + 1)
    else
      FindAll(s, i + 1)
  }

  /** The last match of the pattern, if any. */
  function LastBlock(s: string): (r: Option<string>)
    ensures r == None <==> !HasBlock(s)
    ensures r.Some? ==> exists a, b :: IsLastBlock(s, a, b) && r.value == s[a..b + 1]
  {
    var ms := FindAll(s, 0);
    if ms == [] then None
    else
      var m := ms[|ms| - 1];
      assert IsLastBlock(s, m.0, m.1) by {
        forall a', b' | IsBlock(s, a', b') ensures a' <= m.0 {
          var x :| 0 <= x < |ms| && ms[x] == (a', b');
        }
      }
      Some(s[m.0..m.1 + 1])
  }

  /** The rewrite applied to the chosen block before evaluation: JSON
      booleans become Python ones, then every newline is dropped. */
  function Normalise(block: string): string {
    ReplaceAll(ReplaceAll(ReplaceAll(block, "false", "False"), "true", "True"), "\n", "")
  }

  /** After the two boolean rewrites no `false` or `true` is left, and after
      the last step no newline; every other character is kept. */
  lemma NormaliseRewrites(block: string)
    ensures
      var m := ReplaceAll(ReplaceAll(block, "false", "False"), "true", "True");
      && !Contains(m, "false") && !Contains(m, "true")
      && Normalise(block) == ReplaceAll(m, "\n", "")
      && '\n' !in Normalise(block)
      && forall c :: c != '\n' ==> multiset(Normalise(block))[c] == multiset(m)[c]
  {
    var f := ReplaceAll(block, "false", "False");
    var m := ReplaceAll(f, "true", "True");
    assert RecapitalisesFirst("false", "False");
    assert RecapitalisesFirst("true", "True");
    RecapitalisedHasNone(block, "false", "False");
    RecapitalisingKeepsAbsence(f, "true", "True", "false");
    RecapitalisedHasNone(f, "true", "True");
    DeleteChar(m, '\n');
  }

  /** `fa`, a newline and `lse` hold neither boolean word. */
  lemma SplitWordAbsent()
    ensures !Contains("fa\nlse", "false") && !Contains("fa\nlse", "true")
  {
    var b := "fa\nlse";
    forall i | 0 <= i <= |b| ensures !OccursAt(b, i, "false") {
      if i + 5 <= |b| {
        assert b[i..i + 5][2 - i] == b[2] == '\n' != "false"[2 - i];
      }
    }
    forall i | 0 <= i <= |b| ensures !OccursAt(b, i, "true") {
      if i + 4 <= |b| {
        assert b[i..i + 4][0] != 't';
      }
    }
  }

  /** Dropping the newlines last can join a boolean word back together: a
      block holding `fa` and `lse` on two lines normalises to a lower-case
      `false`, which `ast.literal_eval` rejects. */
  lemma NewlineJoinsWord()
    ensures Normalise("fa\nlse") == "false"
  {
    SplitWordAbsent();
    ReplaceAbsent("fa\nlse", "false", "False");
    ReplaceAbsent("fa\nlse", "true", "True");
    var b := "fa\nlse";
    assert b[..1] != "\n" && b[1..][..1] != "\n" && b[2..][..1] == "\n";
    assert b[1..][1..] == b[2..] && b[2..][1..] == "lse";
    assert !Contains("lse", "\n") by {
      forall i | 0 <= i <= 3 ensures !OccursAt("lse", i, "\n") {
        if i < 3 { assert "lse"[i..i + 1][0] == "lse"[i]; }
      }
    }
    ReplaceAbsent("lse", "\n", "");
  }

  /** Python's `parse_answer`: keep the text after the last `</think>`, take
      the last brace block, normalise it and evaluate it with `literal`
      (standing for `ast.literal_eval`, which yields None where the source
      catches SyntaxError or ValueError). */
  function ParseAnswer(raw: string, literal: string -> Option<Dict>): (r: Option<Dict>)
    ensures var text := AfterLast(raw, ThinkEnd);
      && (!HasBlock(text) ==> r == None)
      && (HasBlock(text) ==>
            exists a, b :: IsLastBlock(text, a, b) && r == literal(Normalise(text[a..b + 1])))
  {
    var text := AfterLast(raw, ThinkEnd);
    match LastBlock(text)
    case None => None
    case Some(block) => literal(Normalise(block))
  }

  /** Only the text after the last `</think>` is read: whatever precedes it
      has no effect on the result. */
  lemma ReasoningIgnored(before: string, after: string, literal: string -> Option<Dict>)
    requires !Contains(after, ThinkEnd)
    ensures ParseAnswer(before + ThinkEnd + after, literal) == ParseAnswer(after, literal)
  {
    assert ThinkEnd[0] !in ThinkEnd[1..];
    AfterLastJoin(before, ThinkEnd, after);
  }
}
