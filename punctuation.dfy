/** What the one-character replacements of `replaceText` do (App.js:67, 79-82). */
module Punctuation {
  import opened Chars
  import opened Scan
  import opened Rules
  import opened Pipeline

  /** Reference definition: every character of `cls` becomes `rep`, the others stay. */
  function MapClass(cls: string, rep: string, s: string): string
  {
    if s == [] then [] else (if s[0] in cls then rep else [s[0]]) + MapClass(cls, rep, s[1..])
  }

  lemma {:induction false} ClassReplaceFrom(cls: string, rep: string, s: string, i: nat)
    requires i <= |s|
    ensures ReplaceFrom(ClassMatcher(cls, rep), s, i) == MapClass(cls, rep, s[i..])
    decreases |s| - i
  {
    if i < |s| {
      Step(ClassMatcher(cls, rep), s, i);
      ClassReplaceFrom(cls, rep, s, i + 1);
      assert s[i..][1..] == s[i + 1..];
    }
  }

  /** A global one-character-class replace is the character-by-character map. */
  lemma ClassReplaceIsMap(cls: string, rep: string, s: string)
    ensures ReplaceAll(ClassMatcher(cls, rep), s) == MapClass(cls, rep, s)
  {
    ClassReplaceFrom(cls, rep, s, 0);
    assert s[0..] == s;
  }

  /** With a one-character replacement the map is one for one. */
  lemma {:induction false} MapClassOneForOne(cls: string, rep: string, s: string)
    requires |rep| == 1
    ensures |MapClass(cls, rep, s)| == |s|
    ensures forall k :: 0 <= k < |s| ==>
      MapClass(cls, rep, s)[k] == if s[k] in cls then rep[0] else s[k]
  {
    if s != [] {
      MapClassOneForOne(cls, rep, s[1..]);
    }
  }

  /** A class that does not occur changes nothing. */
  lemma {:induction false} MapClassIdle(cls: string, rep: string, s: string)
    requires forall k :: 0 <= k < |s| ==> s[k] !in cls
    ensures MapClass(cls, rep, s) == s
  {
    if s != [] {
      MapClassIdle(cls, rep, s[1..]);
    }
  }

  /** A character that the replacement does not contain is absent from the
      result when it is in the class or was not there in the first place. */
  lemma {:induction false} MapClassAbsent(cls: string, rep: string, s: string, c: char)
    requires c !in rep && (c in cls || c !in s)
    ensures c !in MapClass(cls, rep, s)
  {
    if s != [] {
      assert c !in s ==> c !in s[1..];
      MapClassAbsent(cls, rep, s[1..], c);
    }
  }

  /** Deleting a class keeps every other character with its multiplicity. */
  lemma {:induction false} MapClassDeletes(cls: string, s: string)
    ensures forall c :: c in cls ==> c !in MapClass(cls, "", s)
    ensures forall c :: c !in cls ==> multiset(MapClass(cls, "", s))[c] == multiset(s)[c]
  {
    if s != [] {
      MapClassDeletes(cls, s[1..]);
      assert s == [s[0]] + s[1..];
      assert multiset(s) == multiset([s[0]]) + multiset(s[1..]);
    }
  }

  /** App.js:67: every `&` becomes `and` and none is left. */
  lemma AmpersandReplaced(s: string)
    ensures ReplaceAll(Ampersand, s) == MapClass("&", "and", s)
    ensures '&' !in ReplaceAll(Ampersand, s)
  {
    ClassReplaceIsMap("&", "and", s);
    MapClassAbsent("&", "and", s, '&');
  }

  /** App.js:79: each `.`, `!` and `?` becomes one `,`; the length is kept. */
  lemma CommaOneForOne(s: string)
    ensures |ReplaceAll(PunctToComma, s)| == |s|
    ensures forall k :: 0 <= k < |s| ==>
      ReplaceAll(PunctToComma, s)[k] == if IsSentenceEnd(s[k]) then ',' else s[k]
  {
    ClassReplaceIsMap(".!?", ",", s);
    MapClassOneForOne(".!?", ",", s);
  }

  /** App.js:80 comes after App.js:79 has removed every `!` and `?`, so it never changes anything. */
  lemma BangToPeriodIdle(s: string)
    ensures ReplaceAll(BangToPeriod, ReplaceAll(PunctToComma, s)) == ReplaceAll(PunctToComma, s)
  {
    var t := ReplaceAll(PunctToComma, s);
    CommaOneForOne(s);
    ClassReplaceIsMap("!?", ".", t);
    MapClassIdle("!?", ".", t);
  }

  /** App.js:79-82 as a whole: line 79's map followed by the deletion of `$`, `#` and `*`. */
  lemma PunctuateDeletesOnly(s: string)
    ensures var commas := ReplaceAll(PunctToComma, s);
      Punctuate(s) == MapClass("$*", "", MapClass("$#", "", commas))
    ensures forall c :: c in ".!?$#*" ==> c !in Punctuate(s)
    ensures forall c :: c !in ".!?$#*," ==> multiset(Punctuate(s))[c] == multiset(s)[c]
  {
    var commas := ReplaceAll(PunctToComma, s);
    BangToPeriodIdle(s);
    ClassReplaceIsMap("$#", "", commas);
    var u := MapClass("$#", "", commas);
    ClassReplaceIsMap("$*", "", u);
    MapClassDeletes("$#", commas);
    MapClassDeletes("$*", u);
    ClassReplaceIsMap(".!?", ",", s);
    MapClassDeletes(".!?", s);
    forall c | c in ".!?" ensures c !in commas {
      MapClassAbsent(".!?", ",", s, c);
    }
    forall c | c in ".!?$#*" ensures c !in Punctuate(s) {
      if c in ".!?" {
        MapClassAbsent("$#", "", commas, c);
        MapClassAbsent("$*", "", u, c);
      } else if c in "$#" {
        MapClassAbsent("$*", "", u, c);
      }
    }
    forall c | c !in ".!?$#*," ensures multiset(Punctuate(s))[c] == multiset(s)[c] {
      MapClassMultiset(".!?", ",", s, c);
    }
  }

  /** A character outside the class and the replacement keeps its multiplicity. */
  lemma {:induction false} MapClassMultiset(cls: string, rep: string, s: string, c: char)
    requires c !in cls && c !in rep
    ensures multiset(MapClass(cls, rep, s))[c] == multiset(s)[c]
  {
    if s != [] {
      MapClassMultiset(cls, rep, s[1..], c);
      assert s == [s[0]] + s[1..];
      assert multiset(s) == multiset([s[0]]) + multiset(s[1..]);
      var head := if s[0] in cls then rep else [s[0]];
      assert MapClass(cls, rep, s) == head + MapClass(cls, rep, s[1..]);
      assert multiset(MapClass(cls, rep, s)) == multiset(head) + multiset(MapClass(cls, rep, s[1..]));
      assert c !in head ==> multiset(head)[c] == 0;
    }
  }
}
