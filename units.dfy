/** The unit loop (App.js:76-78): what a digit-anchored rule replaces, and the
    consequences of the `(\d+)\s*foot|feet` precedence (App.js:33-34). */
module UnitProofs {
  import opened Chars
  import opened Scan
  import opened Rules
  import opened Pipeline

  /** No case-insensitive occurrence of `lit` anywhere in `t`. */
  ghost predicate NoCiLit(t: string, lit: string)
  {
    forall k: nat :: !CiLitAt(t, k, lit)
  }

  /** App.js:33 */
  const Foot := UnitConversions[10]
  /** App.js:34 */
  const DashFeet := UnitConversions[11]

  /** The pattern of App.js:33. */
  const FootMatcher: Matcher := UnitMatcher(Foot)
  /** The pattern of App.js:34. */
  const DashMatcher: Matcher := UnitMatcher(DashFeet)

  /** `\s*<w>` after `j` for a rule of one literal. */
  lemma MatchOneWord(s: string, j: nat, w: string)
    requires j <= |s|
    ensures MatchWords(s, j, [w]).Some? <==> CiLitAt(s, SpaceRunEnd(s, j), w)
    ensures MatchWords(s, j, [w]).Some? ==> MatchWords(s, j, [w]).value == SpaceRunEnd(s, j) + |w|
  {
    assert [w][1..] == [];
  }

  /** The first alternative of a rule with one literal: digits, white space, the literal, and the optional ending. */
  lemma AnchoredEndOneWord(r: UnitRule, s: string, i: nat)
    requires |r.words| == 1 && i <= |s|
    ensures var k := SpaceRunEnd(s, DigitRunEnd(s, i));
      AnchoredEnd(r, s, i).Some? <==> i < |s| && IsDigit(s[i]) && CiLitAt(s, k, r.words[0])
    ensures var k := SpaceRunEnd(s, DigitRunEnd(s, i));
      var e := if CiLitAt(s, k + |r.words[0]|, r.optional) then k + |r.words[0]| + |r.optional| else k + |r.words[0]|;
      AnchoredEnd(r, s, i).Some? ==> AnchoredEnd(r, s, i).value == e
  {
    var d := DigitRunEnd(s, i);
    var w := r.words[0];
    assert r.words == [w];
    MatchOneWord(s, d, w);
  }

  /** A digit-anchored rule of one literal matches exactly where a digit run,
      white space and the literal occur; the digit run stays, the white space
      and the unit (with its optional ending) give way to the abbreviation. */
  lemma AnchoredUnitHit(r: UnitRule, s: string, i: nat)
    requires WellFormedRule(r) && |r.words| == 1 && r.bare == []
    ensures Fires(UnitMatcher(r), s, i) <==>
      i < |s| && IsDigit(s[i]) && CiLitAt(s, SpaceRunEnd(s, DigitRunEnd(s, i)), r.words[0])
    ensures Fires(UnitMatcher(r), s, i) ==>
      var d := DigitRunEnd(s, i);
      var k := SpaceRunEnd(s, d);
      var h := UnitMatcher(r)(s, i).value;
      h.text == s[i..d] + r.abbrev
      && h.len == (if CiLitAt(s, k + |r.words[0]|, r.optional) then k + |r.words[0]| + |r.optional| else k + |r.words[0]|) - i
  {
    if i <= |s| {
      AnchoredEndOneWord(r, s, i);
      var h := UnitHit(r, s, i);
      if AnchoredEnd(r, s, i).Some? {
        assert h == Some(Hit(AnchoredEnd(r, s, i).value - i, s[i..DigitRunEnd(s, i)] + r.abbrev));
      }
    }
  }

  /** The bare `feet` alternative: with no number before it, `feet` becomes ` ft.`
      (the unmatched `$1` is empty). */
  lemma BareFeetReplaced(s: string, i: nat)
    ensures CiLitAt(s, i, "feet") ==>
      Fires(FootMatcher, s, i) && FootMatcher(s, i).value == Hit(4, " ft.")
  {
    UnitConversionsWellFormed();
    if CiLitAt(s, i, "feet") {
      assert ToLower(s[i + 0]) == ToLower("feet"[0]);
    }
  }

  /** The digit-anchored `(\d+)\s*foot` alternative: a digit run, white space and
      `foot` in any case become the digits followed by ` ft.`. */
  lemma FootAnchored(s: string, i: nat)
    requires i < |s| && IsDigit(s[i]) && CiLitAt(s, SpaceRunEnd(s, DigitRunEnd(s, i)), "foot")
    ensures Fires(FootMatcher, s, i)
    ensures FootMatcher(s, i).value.text == s[i..DigitRunEnd(s, i)] + " ft."
    ensures i + FootMatcher(s, i).value.len == SpaceRunEnd(s, DigitRunEnd(s, i)) + 4
  {
    UnitConversionsWellFormed();
    AnchoredEndOneWord(Foot, s, i);
    assert Foot.words[0] == "foot";
  }

  /** What the `foot|feet` rule puts in: digits followed by ` ft.`. */
  lemma FootText(s: string, i: nat)
    requires Fires(FootMatcher, s, i)
    ensures exists d :: AllDigits(d) && FootMatcher(s, i).value.text == d + " ft."
  {
    UnitConversionsWellFormed();
    var h := FootMatcher(s, i).value;
    if IsDigit(s[i]) && h.text == s[i..DigitRunEnd(s, i)] + Foot.abbrev {
      assert AllDigits(s[i..DigitRunEnd(s, i)]);
    } else {
      assert h.text == [] + " ft.";
    }
  }

  /** `ToLower(h[p])` is `f` and `ToLower(h[p + 1])` is `e`. */
  predicate FeAt(h: string, p: nat)
    requires p + 1 < |h|
  {
    ToLower(h[p]) == 'f' && ToLower(h[p + 1]) == 'e'
  }

  /** No position of `h` can start an occurrence of `feet`. */
  ghost predicate NoFeetStart(h: string)
  {
    (forall p: nat :: p + 1 < |h| ==> !FeAt(h, p))
    && (|h| == 0 || ToLower(h[|h| - 1]) != 'f')
  }

  lemma DigitsFtNoFeetStart(d: string)
    requires AllDigits(d)
    ensures NoFeetStart(d + " ft.")
  {
    var h := d + " ft.";
    forall p: nat | p + 1 < |h| ensures !FeAt(h, p) {
      if p < |d| {
        assert h[p] == d[p];
      } else if p == |d| + 1 {
        assert h[p + 1] == 't';
      }
    }
    assert h[|h| - 1] == '.';
  }

  /** The first two characters of a case-insensitive occurrence. */
  lemma CiLitHead(t: string, k: nat, v: string)
    requires |v| >= 2
    ensures CiLitAt(t, k, v) ==> ToLower(t[k]) == ToLower(v[0]) && ToLower(t[k + 1]) == ToLower(v[1])
  {
    if CiLitAt(t, k, v) {
      assert ToLower(t[k + 0]) == ToLower(v[0]);
    }
  }

  /** A word of letters at the start of the output of a pass whose replacements
      all start with a non-letter is copied from the input, where the pass did
      not fire. */
  lemma LetterWordOrigin(f: Matcher, s: string, i: nat, v: string)
    requires i <= |s|
    requires forall x :: 0 <= x < |v| ==> IsLetter(v[x])
    requires forall x :: i <= x < |s| ==> NonLetterHit(f, s, x)
    requires CiLitAt(ReplaceFrom(f, s, i), 0, v)
    ensures CiLitAt(s, i, v)
    ensures v != [] ==> !Fires(f, s, i)
  {
    var t := ReplaceFrom(f, s, i);
    forall x | 0 <= x < |v| ensures IsLetter(t[x]) {
      assert ToLower(t[x]) == ToLower(v[x]);
    }
    LetterPrefix(f, s, i, |v|);
    forall x | 0 <= x < |v| ensures ToLower(s[i + x]) == ToLower(v[x]) {
      assert s[i + x] == t[x];
    }
  }

  /** The `foot|feet` rule's replacements start with a digit or a space. */
  lemma FootTextsNonLetter(s: string, i: nat)
    ensures forall x :: i <= x < |s| ==> NonLetterHit(FootMatcher, s, x)
  {
    var f := FootMatcher;
    forall x | i <= x < |s| && Fires(f, s, x) ensures f(s, x).value.text != [] && !IsLetter(f(s, x).value.text[0]) {
      FootText(s, x);
      var d :| AllDigits(d) && f(s, x).value.text == d + " ft.";
      assert f(s, x).value.text[0] == (d + " ft.")[0];
    }
  }

  /** Text without `feet` stays without it behind a prefix that cannot start one. */
  lemma NoFeetBehind(h: string, t: string)
    requires NoFeetStart(h) && NoCiLit(t, "feet")
    ensures NoCiLit(h + t, "feet")
  {
    var u := h + t;
    forall k: nat ensures !CiLitAt(u, k, "feet") {
      if k < |h| {
        CiLitHead(u, k, "feet");
        assert u[k] == h[k];
        if k + 1 < |h| {
          assert u[k + 1] == h[k + 1];
          assert !FeAt(h, k);
        }
      } else {
        ShiftConcat(h, t, k - |h|, "feet");
      }
    }
  }


  /** Induction step where the `foot|feet` rule fires at `i`. */
  lemma FeetAfterHit(s: string, i: nat)
    requires i < |s| && Fires(FootMatcher, s, i)
    requires NoCiLit(ReplaceFrom(FootMatcher, s, i + FootMatcher(s, i).value.len), "feet")
    ensures NoCiLit(ReplaceFrom(FootMatcher, s, i), "feet")
  {
    FootHitClean(s, i);
    HitNoFeet(FootMatcher, s, i);
  }

  /** A scan step that puts in text unable to begin a `feet` adds no `feet` to the rest. */
  lemma HitNoFeet(f: Matcher, s: string, i: nat)
    requires Fires(f, s, i) && NoFeetStart(f(s, i).value.text)
    requires NoCiLit(ReplaceFrom(f, s, i + f(s, i).value.len), "feet")
    ensures NoCiLit(ReplaceFrom(f, s, i), "feet")
  {
    Step(f, s, i);
    NoFeetBehind(f(s, i).value.text, ReplaceFrom(f, s, i + f(s, i).value.len));
  }

  /** What the `foot|feet` rule puts in cannot begin a `feet`. */
  lemma FootHitClean(s: string, i: nat)
    requires Fires(FootMatcher, s, i)
    ensures NoFeetStart(FootMatcher(s, i).value.text)
  {
    FootText(s, i);
    var d :| AllDigits(d) && FootMatcher(s, i).value.text == d + " ft.";
    DigitsFtNoFeetStart(d);
  }

  /** Induction step where the `foot|feet` rule copies `s[i]`. */
  lemma FeetAfterCopy(s: string, i: nat)
    requires i < |s| && !Fires(FootMatcher, s, i)
    requires NoCiLit(ReplaceFrom(FootMatcher, s, i + 1), "feet")
    ensures NoCiLit(ReplaceFrom(FootMatcher, s, i), "feet")
  {
    var f := FootMatcher;
    var t' := ReplaceFrom(f, s, i + 1);
    assert ReplaceFrom(f, s, i) == [s[i]] + t' by {
      Step(f, s, i);
    }
    assert !CiLitAt(ReplaceFrom(f, s, i), 0, "feet") by {
      BareFeetReplaced(s, i);
      FootTextsNonLetter(s, i);
      if CiLitAt(ReplaceFrom(f, s, i), 0, "feet") {
        LetterWordOrigin(f, s, i, "feet");
      }
    }
    NoFeetAfterHead(s[i], t');
  }

  /** A `feet` in `[c] + b` that does not start at `c` lies in `b`. */
  lemma NoFeetAfterHead(c: char, b: string)
    requires NoCiLit(b, "feet") && !CiLitAt([c] + b, 0, "feet")
    ensures NoCiLit([c] + b, "feet")
  {
    forall k: nat ensures !CiLitAt([c] + b, k, "feet") {
      if k > 0 {
        ShiftConcat([c], b, k - 1, "feet");
      }
    }
  }

  /** After the `foot|feet` rule, from position `i` on, no `feet` is left in any case. */
  lemma {:induction false} NoFeetFrom(s: string, i: nat)
    requires i <= |s|
    ensures NoCiLit(ReplaceFrom(FootMatcher, s, i), "feet")
    decreases |s| - i
  {
    var f := FootMatcher;
    if i < |s| {
      if Fires(f, s, i) {
        NoFeetFrom(s, i + f(s, i).value.len);
        FeetAfterHit(s, i);
      } else {
        NoFeetFrom(s, i + 1);
        FeetAfterCopy(s, i);
      }
    }
  }

  /** App.js:33: once the rule has run, no `feet` is left in any case. */
  lemma NoFeetAfterFootRule(s: string)
    ensures NoCiLit(ReplaceAll(FootMatcher, s), "feet")
  {
    NoFeetFrom(s, 0);
  }

  /** App.js:34 needs `-feet`, so it can never fire on text without `feet`. */
  lemma DashFeetIdle(t: string)
    requires NoCiLit(t, "feet")
    ensures ReplaceAll(UnitMatcher(DashFeet), t) == t
  {
    forall x | 0 <= x < |t| ensures !Fires(DashMatcher, t, x) {
      if Fires(DashMatcher, t, x) {
        var k := DashFeetNeedsFeet(t, x);
      }
    }
    NoMatchIdentity(DashMatcher, t);
  }

  /** Where the `-feet` rule fires, a `feet` follows. */
  lemma DashFeetNeedsFeet(t: string, x: nat) returns (k: nat)
    requires Fires(DashMatcher, t, x)
    ensures CiLitAt(t, k, "feet")
  {
    UnitConversionsWellFormed();
    var e := SpaceRunEnd(t, DigitRunEnd(t, x));
    AnchoredUnitHit(DashFeet, t, x);
    assert ToLower(t[e + 1 + 0]) == ToLower("-feet"[1]);
    assert forall y :: 0 <= y < 4 ==> "-feet"[y + 1] == "feet"[y];
    k := e + 1;
  }


  /** App.js:76-78: the last rule of the list never changes the text. */
  lemma LastUnitRuleIdle(s: string)
    ensures UnitsUpTo(s, |UnitConversions|) == UnitsUpTo(s, |UnitConversions| - 1)
  {
    NoFeetAfterFootRule(UnitsUpTo(s, 10));
    DashFeetIdle(UnitsUpTo(s, 11));
  }
}
