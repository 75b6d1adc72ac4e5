/** `contains_ordinal_number` (utils.py): the routing cue that a question
    refers to something by its position ("the third scene"). */
module Ordinal {
  import opened PyStr

  /** The fixed vocabulary of ordinal words and abbreviations, one constant
      per source line of the list (utils.py:126-133). */
  const Line1: seq<string> := ["first", "second", "third", "fourth", "fifth", "sixth", "seventh", "eighth"]
  const Line2: seq<string> := ["ninth", "tenth", "eleventh", "twelfth", "thirteenth", "fourteenth"]
  const Line3: seq<string> := ["fifteenth", "sixteenth", "seventeenth", "eighteenth", "nineteenth"]
  const Line4: seq<string> := ["twentieth", "thirtieth", "fortieth", "fiftieth", "sixtieth", "seventieth"]
  const Line5: seq<string> := ["eightieth", "ninetieth", "hundredth", "last"]
  const Line6: seq<string> := ["1st", "2nd", "3rd", "4th", "5th", "6th", "7th", "8th", "9th", "10th"]
  const Line7: seq<string> := ["11th", "12th", "13th", "14th", "15th", "16th", "17th", "18th", "19th"]
  const Line8: seq<string> := ["20th", "30th", "40th", "50th", "60th", "70th", "80th", "90th", "100th"]

  const Vocabulary: seq<string> := Line1 + Line2 + Line3 + Line4 + Line5 + Line6 + Line7 + Line8

  /** Python's `any(w in t for w in words)`. */
  function AnyIn(words: seq<string>, t: string): (r: bool)
    ensures r <==> exists k :: 0 <= k < |words| && Contains(t, words[k])
  {
    if words == [] then false
    else Contains(t, words[0]) || AnyIn(words[1..], t)
  }

  /** Python's `contains_ordinal_number`: some vocabulary word is a substring
      of the lower-cased text. */
  function ContainsOrdinalNumber(text: string): (r: bool)
    ensures r <==> exists k :: 0 <= k < |Vocabulary| && Contains(Lower(text), Vocabulary[k])
  {
    AnyIn(Vocabulary, Lower(text))
  }

  /** The test ignores letter case. */
  lemma CaseInsensitive(a: string, b: string)
    requires Lower(a) == Lower(b)
    ensures ContainsOrdinalNumber(a) == ContainsOrdinalNumber(b)
  {
  }

  /** A word holding a character that the text lacks is not in the text. */
  lemma MissingCharacter(t: string, w: string, c: char)
    requires c in w && c !in t
    ensures !Contains(t, w)
  {
    forall p | 0 <= p <= |t| ensures !OccursAt(t, p, w) {
      if p + |w| <= |t| {
        var j :| 0 <= j < |w| && w[j] == c;
        assert t[p..p + |w|][j] == t[p + j] != c;
      }
    }
  }

  /** Any text holding a vocabulary word written in lower case, whatever
      surrounds it, is an ordinal question. */
  lemma WordIsOrdinal(before: string, after: string, k: nat)
    requires k < |Vocabulary|
    requires forall j :: 0 <= j < |Vocabulary[k]| ==> !('A' <= Vocabulary[k][j] <= 'Z')
    ensures ContainsOrdinalNumber(before + Vocabulary[k] + after)
  {
    var w := Vocabulary[k];
    LowerAppend(before + w, after);
    LowerAppend(before, w);
    LowerOfLowercase(w);
    var t := Lower(before + w + after);
    assert t == Lower(before) + w + Lower(after);
    var n := |Lower(before)|;
    assert t[n..n + |w|] == w;
    assert OccursAt(t, n, w);
  }

  /** For instance "What happened in the third scene?" is one. */
  lemma ThirdIsOrdinal(before: string, after: string)
    ensures ContainsOrdinalNumber(before + "third" + after)
  {
    assert Vocabulary[2] == "third";
    WordIsOrdinal(before, after, 2);
  }

  /** Every vocabulary word holds at least one of these characters. */
  const Telltale: string := "cfglnrx0123456789"

  lemma NoWordOfLine1(t: string)
    requires forall j :: 0 <= j < |t| ==> t[j] !in Telltale
    ensures forall k :: 0 <= k < |Line1| ==> !Contains(t, Line1[k])
  {
    forall k | 0 <= k < |Line1| ensures !Contains(t, Line1[k]) {
      if k == 0 { MissingCharacter(t, Line1[k], 'f');
      } else if k == 1 { MissingCharacter(t, Line1[k], 'c');
      } else if k == 2 { MissingCharacter(t, Line1[k], 'r');
      } else if k == 3 { MissingCharacter(t, Line1[k], 'f');
      } else if k == 4 { MissingCharacter(t, Line1[k], 'f');
      } else if k == 5 { MissingCharacter(t, Line1[k], 'x');
      } else if k == 6 { MissingCharacter(t, Line1[k], 'n');
      } else { MissingCharacter(t, Line1[k], 'g'); }
    }
  }

  lemma NoWordOfLine2(t: string)
    requires forall j :: 0 <= j < |t| ==> t[j] !in Telltale
    ensures forall k :: 0 <= k < |Line2| ==> !Contains(t, Line2[k])
  {
    forall k | 0 <= k < |Line2| ensures !Contains(t, Line2[k]) {
      if k == 0 { MissingCharacter(t, Line2[k], 'n');
      } else if k == 1 { MissingCharacter(t, Line2[k], 'n');
      } else if k == 2 { MissingCharacter(t, Line2[k], 'l');
      } else if k == 3 { MissingCharacter(t, Line2[k], 'l');
      } else if k == 4 { MissingCharacter(t, Line2[k], 'r');
      } else { MissingCharacter(t, Line2[k], 'f'); }
    }
  }

  lemma NoWordOfLine3(t: string)
    requires forall j :: 0 <= j < |t| ==> t[j] !in Telltale
    ensures forall k :: 0 <= k < |Line3| ==> !Contains(t, Line3[k])
  {
    forall k | 0 <= k < |Line3| ensures !Contains(t, Line3[k]) {
      if k == 0 { MissingCharacter(t, Line3[k], 'f');
      } else if k == 1 { MissingCharacter(t, Line3[k], 'x');
      } else if k == 2 { MissingCharacter(t, Line3[k], 'n');
      } else if k == 3 { MissingCharacter(t, Line3[k], 'g');
      } else { MissingCharacter(t, Line3[k], 'n'); }
    }
  }

  lemma NoWordOfLine4(t: string)
    requires forall j :: 0 <= j < |t| ==> t[j] !in Telltale
    ensures forall k :: 0 <= k < |Line4| ==> !Contains(t, Line4[k])
  {
    forall k | 0 <= k < |Line4| ensures !Contains(t, Line4[k]) {
      if k == 0 { MissingCharacter(t, Line4[k], 'n');
      } else if k == 1 { MissingCharacter(t, Line4[k], 'r');
      } else if k == 2 { MissingCharacter(t, Line4[k], 'f');
      } else if k == 3 { MissingCharacter(t, Line4[k], 'f');
      } else if k == 4 { MissingCharacter(t, Line4[k], 'x');
      } else { MissingCharacter(t, Line4[k], 'n'); }
    }
  }

  lemma NoWordOfLine5(t: string)
    requires forall j :: 0 <= j < |t| ==> t[j] !in Telltale
    ensures forall k :: 0 <= k < |Line5| ==> !Contains(t, Line5[k])
  {
    forall k | 0 <= k < |Line5| ensures !Contains(t, Line5[k]) {
      if k == 0 { MissingCharacter(t, Line5[k], 'g');
      } else if k == 1 { MissingCharacter(t, Line5[k], 'n');
      } else if k == 2 { MissingCharacter(t, Line5[k], 'n');
      } else { MissingCharacter(t, Line5[k], 'l'); }
    }
  }

  lemma NoWordOfLine6(t: string)
    requires forall j :: 0 <= j < |t| ==> t[j] !in Telltale
    ensures forall k :: 0 <= k < |Line6| ==> !Contains(t, Line6[k])
  {
    forall k | 0 <= k < |Line6| ensures !Contains(t, Line6[k]) {
      if k == 0 { MissingCharacter(t, Line6[k], '1');
      } else if k == 1 { MissingCharacter(t, Line6[k], '2');
      } else if k == 2 { MissingCharacter(t, Line6[k], '3');
      } else if k == 3 { MissingCharacter(t, Line6[k], '4');
      } else if k == 4 { MissingCharacter(t, Line6[k], '5');
      } else if k == 5 { MissingCharacter(t, Line6[k], '6');
      } else if k == 6 { MissingCharacter(t, Line6[k], '7');
      } else if k == 7 { MissingCharacter(t, Line6[k], '8');
      } else if k == 8 { MissingCharacter(t, Line6[k], '9');
      } else { MissingCharacter(t, Line6[k], '1'); }
    }
  }

  lemma NoWordOfLine7(t: string)
    requires forall j :: 0 <= j < |t| ==> t[j] !in Telltale
    ensures forall k :: 0 <= k < |Line7| ==> !Contains(t, Line7[k])
  {
    forall k | 0 <= k < |Line7| ensures !Contains(t, Line7[k]) {
      if k == 0 { MissingCharacter(t, Line7[k], '1');
      } else if k == 1 { MissingCharacter(t, Line7[k], '1');
      } else if k == 2 { MissingCharacter(t, Line7[k], '1');
      } else if k == 3 { MissingCharacter(t, Line7[k], '1');
      } else if k == 4 { MissingCharacter(t, Line7[k], '1');
      } else if k == 5 { MissingCharacter(t, Line7[k], '1');
      } else if k == 6 { MissingCharacter(t, Line7[k], '1');
      } else if k == 7 { MissingCharacter(t, Line7[k], '1');
      } else { MissingCharacter(t, Line7[k], '1'); }
    }
  }

  lemma NoWordOfLine8(t: string)
    requires forall j :: 0 <= j < |t| ==> t[j] !in Telltale
    ensures forall k :: 0 <= k < |Line8| ==> !Contains(t, Line8[k])
  {
    forall k | 0 <= k < |Line8| ensures !Contains(t, Line8[k]) {
      if k == 0 { MissingCharacter(t, Line8[k], '2');
      } else if k == 1 { MissingCharacter(t, Line8[k], '3');
      } else if k == 2 { MissingCharacter(t, Line8[k], '4');
      } else if k == 3 { MissingCharacter(t, Line8[k], '5');
      } else if k == 4 { MissingCharacter(t, Line8[k], '6');
      } else if k == 5 { MissingCharacter(t, Line8[k], '7');
      } else if k == 6 { MissingCharacter(t, Line8[k], '8');
      } else if k == 7 { MissingCharacter(t, Line8[k], '9');
      } else { MissingCharacter(t, Line8[k], '1'); }
    }
  }

  /** A text that, once lower-cased, holds none of the telltale characters is
      not an ordinal question. */
  lemma WithoutTelltaleNotOrdinal(text: string)
    requires forall j :: 0 <= j < |text| ==> LowerChar(text[j]) !in Telltale
    ensures !ContainsOrdinalNumber(text)
  {
    var t := Lower(text);
    NoWordOfLine1(t);
    NoWordOfLine2(t);
    NoWordOfLine3(t);
    NoWordOfLine4(t);
    NoWordOfLine5(t);
    NoWordOfLine6(t);
    NoWordOfLine7(t);
    NoWordOfLine8(t);
    forall k | 0 <= k < |Vocabulary| ensures !Contains(t, Vocabulary[k]) {
      if k < 8 { assert Vocabulary[k] == Line1[k - 0];
      } else if k < 14 { assert Vocabulary[k] == Line2[k - 8];
      } else if k < 19 { assert Vocabulary[k] == Line3[k - 14];
      } else if k < 25 { assert Vocabulary[k] == Line4[k - 19];
      } else if k < 29 { assert Vocabulary[k] == Line5[k - 25];
      } else if k < 39 { assert Vocabulary[k] == Line6[k - 29];
      } else if k < 48 { assert Vocabulary[k] == Line7[k - 39];
      } else { assert Vocabulary[k] == Line8[k - 48]; }
    }
  }

  /** None of the letters of the overview question below is telltale,
      whatever its case. */
  lemma PlainChar(c: char)
    requires c in "What isvdeobu?"
    ensures LowerChar(c) !in Telltale
  {
  }

  /** "What is the video about?" is not an ordinal question. */
  lemma OverviewQuestionIsNotOrdinal(q: string)
    requires q == "What is the video about?"
    ensures !ContainsOrdinalNumber(q)
  {
    forall j | 0 <= j < |q| ensures LowerChar(q[j]) !in Telltale {
      PlainChar(q[j]);
    }
    WithoutTelltaleNotOrdinal(q);
  }
}
