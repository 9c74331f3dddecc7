/** The last pass of `capitalizeFirstLetter` (App.js:46, 60-63): its pattern
    is case-sensitive and its `.` is unescaped. */
module UnitCaseProofs {
  import opened Chars
  import opened Scan
  import opened Capitalize

  /** The unit pass of App.js:60-63 is case-sensitive: no token starts at a
      character that is not an upper-case letter, `i` or `f`. */
  lemma NoTokenAt(s: string, i: nat)
    requires i < |s| && !IsUpper(s[i]) && s[i] != 'i' && s[i] != 'f'
    ensures !Fires(UnitCase, s, i)
  {
    forall n | 0 <= n < |UnitTokens| ensures TokenEnd(s, i, UnitTokens[n]).None? {
      var lit := UnitTokens[n].lit;
      assert lit[0] != s[i];
      assert i + |lit| <= |s| ==> s[i..i + |lit|][0] == s[i];
    }
  }

  /** "10 width" has become "10 w" by App.js:49, and App.js:60-63 do not make it "10 W" again. */
  lemma LowerUnitLetterStays()
    ensures UpperUnits("10 w") == "10 w"
  {
    var s := "10 w";
    forall x | 0 <= x < |s| ensures !Fires(UnitCase, s, x) {
      NoTokenAt(s, x);
    }
    NoMatchIdentity(UnitCase, s);
  }

  lemma LitAtHead(s: string, i: nat, lit: string)
    ensures LitAt(s, i, lit) && lit != [] ==> s[i] == lit[0]
  {
    if LitAt(s, i, lit) && lit != [] {
      assert s[i..i + |lit|][0] == s[i];
    }
  }

  /** The alternatives are tried in order: the first that matches and is followed by `\b` wins. */
  lemma {:induction false} TokensEndFirst(s: string, i: nat, tks: seq<Token>, n: nat)
    requires n < |tks|
    requires forall m :: 0 <= m < n ==> TokenEnd(s, i, tks[m]).None?
    requires TokenEnd(s, i, tks[n]).Some? && IsBoundary(s, TokenEnd(s, i, tks[n]).value)
    ensures TokensEnd(s, i, tks) == TokenEnd(s, i, tks[n])
  {
    if n > 0 {
      assert tks[1..][n - 1] == tks[n];
      TokensEndFirst(s, i, tks[1..], n - 1);
    }
  }

  /** The `.` of `in.` has to be followed by `\b`; after a period at the end of the text there is none. */
  lemma InchesAtEndStay()
    ensures UpperUnits("5 in.") == "5 in."
  {
    var s := "5 in.";
    forall x | 0 <= x < |s| ensures !Fires(UnitCase, s, x) {
      if x == 2 {
        assert !IsBoundary(s, 5);
        forall n | 0 <= n < |UnitTokens| ensures TokenEnd(s, 2, UnitTokens[n]).None? || TokenEnd(s, 2, UnitTokens[n]) == Some(5) {
          LitAtHead(s, 2, UnitTokens[n].lit);
        }
      } else {
        NoTokenAt(s, x);
      }
    }
    NoMatchIdentity(UnitCase, s);
  }

  lemma InTokenAtStart(s: string)
    requires s == "in x"
    ensures TokensEnd(s, 0, UnitTokens) == Some(3)
  {
    forall n | 0 <= n < 5 ensures TokenEnd(s, 0, UnitTokens[n]).None? {
      LitAtHead(s, 0, UnitTokens[n].lit);
    }
    assert s[0..2] == "in";
    assert TokenEnd(s, 0, UnitTokens[5]) == Some(3);
    assert IsBoundary(s, 3) && IsBoundary(s, 0);
    TokensEndFirst(s, 0, UnitTokens, 5);
  }

  lemma UpperIn()
    ensures UpperString("in ") == "IN "
  {
    var u := UpperString("in ");
    assert u[0] == ToUpper('i') == 'I';
    assert u[1] == ToUpper('n') == 'N';
    assert u[2] == ToUpper(' ') == ' ';
  }

  /** A token that ends at `e` after a boundary at `i` is upper-cased. */
  lemma UnitCaseHitAt(s: string, i: nat, e: nat)
    requires IsBoundary(s, i) && TokensEnd(s, i, UnitTokens) == Some(e)
    ensures UnitCaseHit(s, i).Some? && UnitCaseHit(s, i).value.len == e - i
  {
  }

  lemma UnitCaseApply(s: string, i: nat)
    ensures UnitCase(s, i) == UnitCaseHit(s, i)
  {
  }

  /** The token found after a boundary is what the pattern of App.js:60-63 upper-cases. */
  lemma UnitCaseAt(s: string, i: nat, e: nat)
    requires IsBoundary(s, i) && TokensEnd(s, i, UnitTokens) == Some(e)
    ensures UnitCase(s, i).Some? && UnitCase(s, i).value.len == e - i
    ensures UnitCase(s, i).value.text == UpperString(s[i..e])
  {
    UnitCaseApply(s, i);
    UnitCaseHitAt(s, i, e);
    assert i + (e - i) == e;
  }

  lemma InText(s: string, t: string)
    requires s == "in x" && t == UpperString(s[0..3])
    ensures t == "IN "
  {
    assert s[0..3] == "in ";
    UpperIn();
  }

  lemma InHitAtStart(s: string)
    requires s == "in x"
    ensures UnitCase(s, 0) == Some(Hit(3, "IN "))
  {
    InTokenAtStart(s);
    assert IsBoundary(s, 0);
    UnitCaseAt(s, 0, 3);
    InText(s, UnitCase(s, 0).value.text);
  }

  /** The unescaped `.` matches any character, so `in` followed by a space and a word is upper-cased with the space. */
  lemma InFollowedBySpace()
    ensures UpperUnits("in x") == "IN x"
  {
    var s := "in x";
    InHitAtStart(s);
    assert Fires(UnitCase, s, 0);
    Step(UnitCase, s, 0);
    NoTokenAt(s, 3);
    Step(UnitCase, s, 3);
    assert ReplaceFrom(UnitCase, s, 4) == [];
    assert ReplaceFrom(UnitCase, s, 3) == "x";
  }

  // ----- the whole pass -----

  /** Every alternative is a non-empty literal of letters: at most three for a
      literal alternative, two before the unescaped `.`. */
  predicate TokenOk(tk: Token)
  {
    0 < |tk.lit| && (if tk.Exact? then |tk.lit| <= 3 else |tk.lit| == 2)
    && forall k :: 0 <= k < |tk.lit| ==> IsLetter(tk.lit[k])
  }

  lemma TokensOk()
    ensures forall n :: 0 <= n < |UnitTokens| ==> TokenOk(UnitTokens[n])
  {
  }

  /** The alternative that `TokensEnd` takes. */
  lemma {:induction false} TokensEndPick(s: string, y: nat, tks: seq<Token>) returns (n: nat)
    requires TokensEnd(s, y, tks).Some?
    ensures n < |tks| && TokenEnd(s, y, tks[n]) == TokensEnd(s, y, tks)
    decreases |tks|
  {
    if TokenEnd(s, y, tks[0]).Some? && IsBoundary(s, TokenEnd(s, y, tks[0]).value) {
      n := 0;
    } else {
      var m := TokensEndPick(s, y, tks[1..]);
      n := m + 1;
    }
  }

  /** A well-formed alternative consumes its literal and at most one more character. */
  lemma TokenLength(s: string, y: nat, tk: Token)
    requires TokenOk(tk) && TokenEnd(s, y, tk).Some?
    ensures y + |tk.lit| <= TokenEnd(s, y, tk).value <= y + |tk.lit| + 1
    ensures TokenEnd(s, y, tk).value <= y + 3
  {
  }

  /** A match of the unit pattern is a boundary followed by an alternative that `TokensEnd` accepts. */
  lemma HitEnd(s: string, y: nat) returns (e: nat)
    requires UnitCaseHit(s, y).Some?
    ensures IsBoundary(s, y) && TokensEnd(s, y, UnitTokens) == Some(e)
    ensures e == y + UnitCaseHit(s, y).value.len
  {
    e := TokensEnd(s, y, UnitTokens).value;
  }

  lemma PickToken(s: string, y: nat, e: nat) returns (tk: Token)
    requires TokensEnd(s, y, UnitTokens) == Some(e)
    ensures TokenOk(tk) && TokenEnd(s, y, tk) == Some(e)
    ensures e <= y + |tk.lit| + 1 && e <= y + 3
  {
    var n := TokensEndPick(s, y, UnitTokens);
    TokensOk();
    tk := UnitTokens[n];
    TokenLength(s, y, tk);
  }

  /** The literal of a matched alternative is in the text, so its positions hold letters. */
  lemma HitLetter(s: string, y: nat, tk: Token, p: nat)
    requires TokenOk(tk) && TokenEnd(s, y, tk).Some? && y <= p < y + |tk.lit|
    ensures s[p] == tk.lit[p - y] && IsLetter(s[p])
  {
    assert s[y..y + |tk.lit|][p - y] == s[p];
  }

  /** The characters of `s[a..b]` are letters. */
  predicate Letters(s: string, a: nat, b: nat)
    requires a <= b <= |s|
  {
    forall p :: a <= p < b ==> IsLetter(s[p])
  }

  /** A match starts at a boundary with a run of `n` letters and consumes at most one character more. */
  lemma HitSpan(s: string, y: nat) returns (n: nat)
    requires Fires(UnitCase, s, y)
    ensures IsBoundary(s, y) && 1 <= n && y + n <= |s| && Letters(s, y, y + n)
    ensures UnitCase(s, y).value.len <= n + 1 && UnitCase(s, y).value.len <= 3
  {
    UnitCaseApply(s, y);
    var e := HitEnd(s, y);
    var tk := PickToken(s, y, e);
    n := |tk.lit|;
    forall p | y <= p < y + n ensures IsLetter(s[p]) {
      HitLetter(s, y, tk, p);
    }
  }

  /** What a match puts in: its own text, upper-cased. */
  lemma HitText(s: string, y: nat)
    requires Fires(UnitCase, s, y)
    ensures UnitCase(s, y).value.text == UpperString(s[y..y + UnitCase(s, y).value.len])
  {
    UnitCaseApply(s, y);
  }

  /** No match starts strictly inside another: the character before such a start is a letter of the first match. */
  lemma HitAlone(s: string, y: nat, z: nat)
    requires Fires(UnitCase, s, y) && y < z < y + UnitCase(s, y).value.len
    ensures !Fires(UnitCase, s, z)
  {
    var n := HitSpan(s, y);
    assert IsLetter(s[z - 1]);
    if Fires(UnitCase, s, z) {
      var n' := HitSpan(s, z);
      assert false;
    }
  }

  /** A match of the pattern at `y` covers position `x`. */
  predicate HitCovers(s: string, y: nat, x: nat)
  {
    y <= x && Fires(UnitCase, s, y) && x < y + UnitCase(s, y).value.len
  }

  /** Position `x` lies inside a match of the pattern; matches are at most three characters long. */
  predicate InUnitToken(s: string, x: nat)
  {
    HitCovers(s, x, x) || (x >= 1 && HitCovers(s, x - 1, x)) || (x >= 2 && HitCovers(s, x - 2, x))
  }

  /** Reference definition: every character inside a unit token upper-cased, nothing else changed. */
  function UnitsUpcased(s: string): (r: string)
    ensures |r| == |s|
  {
    seq(|s|, x requires 0 <= x < |s| => if InUnitToken(s, x) then ToUpper(s[x]) else s[x])
  }

  lemma UpcasedAt(s: string, x: nat)
    requires x < |s|
    ensures UnitsUpcased(s)[x] == if InUnitToken(s, x) then ToUpper(s[x]) else s[x]
  {
  }

  lemma CoveredChar(s: string, i: nat, x: nat)
    requires Fires(UnitCase, s, i) && i <= x < i + UnitCase(s, i).value.len <= i + 3
    ensures x < |s| && InUnitToken(s, x)
  {
    if x == i {
      CoveredAt(s, x);
    } else if x == i + 1 {
      assert HitCovers(s, x - 1, x);
      CoveredAfter(s, x);
    } else {
      assert x == i + 2;
      assert HitCovers(s, x - 2, x);
      CoveredTwoAfter(s, x);
    }
  }

  lemma CoveredAt(s: string, x: nat)
    requires HitCovers(s, x, x)
    ensures InUnitToken(s, x)
  {
  }

  lemma CoveredAfter(s: string, x: nat)
    requires x >= 1 && HitCovers(s, x - 1, x)
    ensures InUnitToken(s, x)
  {
  }

  lemma CoveredTwoAfter(s: string, x: nat)
    requires x >= 2 && HitCovers(s, x - 2, x)
    ensures InUnitToken(s, x)
  {
  }

  lemma UpperSliceEq(s: string, c: string, i: nat, e: nat)
    requires i <= e <= |s| == |c|
    requires forall x :: i <= x < e ==> ToUpper(s[x]) == c[x]
    ensures UpperString(s[i..e]) == c[i..e]
  {
    var u := UpperString(s[i..e]);
    forall y | 0 <= y < e - i ensures u[y] == c[i..e][y] {
      assert s[i..e][y] == s[i + y];
    }
  }

  /** The reference upper-cases the whole stretch of a match. */
  lemma HitUpcased(s: string, i: nat)
    requires Fires(UnitCase, s, i)
    ensures var e := i + UnitCase(s, i).value.len;
      e <= |s| && UpperString(s[i..e]) == UnitsUpcased(s)[i..e]
  {
    var e := i + UnitCase(s, i).value.len;
    var n := HitSpan(s, i);
    forall x | i <= x < e ensures ToUpper(s[x]) == UnitsUpcased(s)[x] {
      CoveredChar(s, i, x);
      UpcasedAt(s, x);
    }
    UpperSliceEq(s, UnitsUpcased(s), i, e);
  }

  /** No match that starts before `i` reaches `i`. */
  predicate Clear(s: string, i: nat)
  {
    (i >= 1 ==> !HitCovers(s, i - 1, i)) && (i >= 2 ==> !HitCovers(s, i - 2, i))
  }

  /** A match is the reference on its stretch. */
  lemma UnitHitStep(s: string, i: nat) returns (e: nat)
    requires Fires(UnitCase, s, i) && Clear(s, i)
    ensures e == i + UnitCase(s, i).value.len && e <= |s|
    ensures UnitCase(s, i).value.text == UnitsUpcased(s)[i..e]
  {
    e := i + UnitCase(s, i).value.len;
    HitText(s, i);
    HitUpcased(s, i);
  }

  lemma ClearAfterHit(s: string, i: nat)
    requires Fires(UnitCase, s, i) && Clear(s, i)
    ensures Clear(s, i + UnitCase(s, i).value.len)
  {
    var len := UnitCase(s, i).value.len;
    HitOneOrThree(s, i);
    if len == 1 {
      ClearAfterOne(s, i);
    } else {
      ClearAfterThree(s, i);
    }
  }

  /** A unit-token match is one letter long, or three: `GPM`, `in.` and `ft.`. */
  lemma HitOneOrThree(s: string, i: nat)
    requires Fires(UnitCase, s, i)
    ensures UnitCase(s, i).value.len == 1 || UnitCase(s, i).value.len == 3
  {
    UnitCaseApply(s, i);
    var e := HitEnd(s, i);
    var n := TokensEndPick(s, i, UnitTokens);
    AltSpan(s, i, n);
  }

  lemma AltSpan(s: string, y: nat, n: nat)
    requires n < |UnitTokens| && TokenEnd(s, y, UnitTokens[n]).Some?
    ensures TokenEnd(s, y, UnitTokens[n]).value == y + 1 || TokenEnd(s, y, UnitTokens[n]).value == y + 3
  {
  }

  lemma ClearAfterOne(s: string, i: nat)
    requires Fires(UnitCase, s, i) && Clear(s, i) && UnitCase(s, i).value.len == 1
    ensures Clear(s, i + 1)
  {
  }

  lemma ClearAfterThree(s: string, i: nat)
    requires Fires(UnitCase, s, i) && UnitCase(s, i).value.len == 3
    ensures Clear(s, i + UnitCase(s, i).value.len)
  {
    HitAlone(s, i, i + 1);
    HitAlone(s, i, i + 2);
  }

  /** Where the pattern does not match, the scan copies a character outside every token. */
  lemma UnitCopyStep(s: string, i: nat)
    requires i < |s| && !Fires(UnitCase, s, i) && Clear(s, i)
    ensures UnitsUpcased(s)[i] == s[i]
    ensures Clear(s, i + 1)
  {
    UpcasedAt(s, i);
    assert !HitCovers(s, i, i);
    assert !HitCovers(s, i, i + 1);
    if i >= 1 && HitCovers(s, i - 1, i + 1) {
      assert false;
    }
  }

  lemma {:induction false} UnitsUpcasedFrom(s: string, i: nat)
    requires i <= |s| && Clear(s, i)
    ensures ReplaceFrom(UnitCase, s, i) == UnitsUpcased(s)[i..]
    decreases |s| - i
  {
    if i < |s| {
      if Fires(UnitCase, s, i) {
        var e := UnitHitStep(s, i);
        ClearAfterHit(s, i);
        UnitsUpcasedFrom(s, e);
        ScanHit(UnitCase, s, i, e, UnitsUpcased(s));
      } else {
        UnitCopyStep(s, i);
        UnitsUpcasedFrom(s, i + 1);
        ScanCopy(UnitCase, s, i, UnitsUpcased(s));
      }
    }
  }

  /** App.js:60-63: exactly the characters inside a unit token are upper-cased. */
  lemma UpperUnitsIsUnitsUpcased(s: string)
    ensures UpperUnits(s) == UnitsUpcased(s)
  {
    UnitsUpcasedFrom(s, 0);
  }

  /** Every unit token found after a boundary ends up upper-cased. */
  lemma MatchedTokenUpcased(s: string, i: nat, e: nat)
    requires IsBoundary(s, i) && TokensEnd(s, i, UnitTokens) == Some(e)
    ensures i < e <= |s| && UpperUnits(s)[i..e] == UpperString(s[i..e])
  {
    UnitCaseAt(s, i, e);
    UnitCaseApply(s, i);
    FiredTokenUpcased(s, i);
  }

  lemma FiredTokenUpcased(s: string, i: nat)
    requires Fires(UnitCase, s, i)
    ensures var e := i + UnitCase(s, i).value.len;
      e <= |s| && UpperUnits(s)[i..e] == UpperString(s[i..e])
  {
    UpperUnitsIsUnitsUpcased(s);
    HitUpcased(s, i);
  }

  // ----- `in.` that ends a sentence -----

  lemma LitAtChar(s: string, y: nat, lit: string, k: nat)
    requires LitAt(s, y, lit) && k < |lit|
    ensures s[y + k] == lit[k]
  {
    assert s[y..y + |lit|][k] == s[y + k];
  }

  /** The alternative, in `UnitTokens`, that a match of the pattern took. */
  lemma FiredAlternative(s: string, y: nat) returns (n: nat, e: nat)
    requires Fires(UnitCase, s, y)
    ensures e == y + UnitCase(s, y).value.len && IsBoundary(s, e)
    ensures n < |UnitTokens| && TokenEnd(s, y, UnitTokens[n]) == Some(e)
  {
    UnitCaseApply(s, y);
    e := HitEnd(s, y);
    n := TokensEndPick(s, y, UnitTokens);
  }

  /** A match ends at a word boundary. */
  lemma HitEndsAtBoundary(s: string, y: nat) returns (e: nat)
    requires Fires(UnitCase, s, y)
    ensures e == y + UnitCase(s, y).value.len && IsBoundary(s, e)
  {
    UnitCaseApply(s, y);
    e := HitEnd(s, y);
  }

  /** What an alternative that matches at `y` says about the text there. */
  lemma AltShape(s: string, y: nat, n: nat)
    requires n < |UnitTokens| && TokenEnd(s, y, UnitTokens[n]).Some?
    ensures TokenEnd(s, y, UnitTokens[n]).value <= y + 3
    ensures s[y] == 'i' ==> TokenEnd(s, y, UnitTokens[n]).value == y + 3
    ensures TokenEnd(s, y, UnitTokens[n]).value >= y + 2 ==> s[y + 1] != 'i'
  {
    var tk := UnitTokens[n];
    TokensOk();
    TokenLength(s, y, tk);
    LitAtChar(s, y, tk.lit, 0);
    if 2 <= |tk.lit| {
      LitAtChar(s, y, tk.lit, 1);
    }
  }

  /** No match starts at the `i` of `in.`: its only alternative ends after the `.`, where there is no `\b`. */
  lemma InDotNoHitAt(s: string, i: nat)
    requires LitAt(s, i, "in.") && !WordAt(s, i + 3)
    ensures !Fires(UnitCase, s, i)
  {
    LitAtChar(s, i, "in.", 0);
    LitAtChar(s, i, "in.", 2);
    if Fires(UnitCase, s, i) {
      var n, e := FiredAlternative(s, i);
      AltShape(s, i, n);
      assert false;
    }
  }

  /** No match that starts at `y`, just before `in.`, reaches its `i`: no alternative has `i` second. */
  lemma InDotNoHitBefore(s: string, y: nat)
    requires LitAt(s, y + 1, "in.")
    ensures !HitCovers(s, y, y + 1)
  {
    LitAtChar(s, y + 1, "in.", 0);
    if HitCovers(s, y, y + 1) {
      var n, e := FiredAlternative(s, y);
      AltShape(s, y, n);
      assert false;
    }
  }

  /** No match that starts at `y`, two before `in.`, reaches its `i`: it would end between `i` and `n`, where there is no `\b`. */
  lemma ShortOfNoBoundary(s: string, y: nat, len: nat)
    requires len <= 3 && IsBoundary(s, y + len) && !IsBoundary(s, y + 3)
    ensures len <= 2
  {
  }

  lemma InDotNoHitTwoBefore(s: string, y: nat)
    requires LitAt(s, y + 2, "in.")
    ensures !HitCovers(s, y, y + 2)
  {
    LitAtChar(s, y + 2, "in.", 0);
    LitAtChar(s, y + 2, "in.", 1);
    assert !IsBoundary(s, y + 3) by {
      assert WordAt(s, y + 2) && WordAt(s, y + 3);
    }
    if Fires(UnitCase, s, y) {
      HitOneOrThree(s, y);
      var e := HitEndsAtBoundary(s, y);
      ShortOfNoBoundary(s, y, UnitCase(s, y).value.len);
    }
  }

  lemma InDotFirst(s: string, i: nat)
    requires LitAt(s, i, "in.") && !WordAt(s, i + 3)
    ensures !InUnitToken(s, i)
  {
    InDotNoHitAt(s, i);
    if i >= 1 {
      InDotNoHitBefore(s, i - 1);
    }
    if i >= 2 {
      InDotNoHitTwoBefore(s, i - 2);
    }
  }

  lemma InDotSecond(s: string, i: nat)
    requires LitAt(s, i, "in.") && !WordAt(s, i + 3)
    ensures !InUnitToken(s, i + 1)
  {
    LitAtChar(s, i, "in.", 1);
    NoTokenAt(s, i + 1);
    InDotNoHitAt(s, i);
    if i >= 1 {
      InDotNoHitBefore(s, i - 1);
    }
  }

  lemma InDotThird(s: string, i: nat)
    requires LitAt(s, i, "in.") && !WordAt(s, i + 3)
    ensures !InUnitToken(s, i + 2)
  {
    LitAtChar(s, i, "in.", 1);
    LitAtChar(s, i, "in.", 2);
    NoTokenAt(s, i + 1);
    NoTokenAt(s, i + 2);
    InDotNoHitAt(s, i);
  }

  /** A character of `in.` is inside no unit token. */
  lemma InDotCharStays(s: string, i: nat, x: nat)
    requires LitAt(s, i, "in.") && !WordAt(s, i + 3) && i <= x < i + 3
    ensures x < |s| && UnitsUpcased(s)[x] == s[x]
  {
    UpcasedAt(s, x);
    if x == i {
      InDotFirst(s, i);
    } else if x == i + 1 {
      InDotSecond(s, i);
    } else {
      InDotThird(s, i);
    }
  }

  /** App.js:60-63: `in.` followed by no word character (a period that ends the
      sentence) is not a unit token, so it keeps its case. */
  lemma InDotStays(s: string, i: nat)
    requires LitAt(s, i, "in.") && !WordAt(s, i + 3)
    ensures UpperUnits(s)[i..i + 3] == "in."
  {
    UpperUnitsIsUnitsUpcased(s);
    forall x | i <= x < i + 3 ensures UnitsUpcased(s)[x] == s[x] {
      InDotCharStays(s, i, x);
    }
    assert UpperUnits(s)[i..i + 3] == s[i..i + 3];
  }

  // ----- `in` followed by one character and a word -----

  /** The unescaped `.` of `in.` takes any character but a line terminator, so a
      whole-word `in` followed by such a character that is not a word character,
      and then by a word character, is upper-cased together with that character. */
  lemma InThenWordUpcased(s: string, i: nat)
    requires i + 3 < |s| && LitAt(s, i, "in") && !WordAt(s, i - 1)
    requires !WordAt(s, i + 2) && !IsLineTerminator(s[i + 2]) && WordAt(s, i + 3)
    ensures UpperUnits(s)[i..i + 3] == UpperString(s[i..i + 3])
  {
    LitAtHead(s, i, "in");
    forall m | 0 <= m < 5 ensures TokenEnd(s, i, UnitTokens[m]).None? {
      LitAtHead(s, i, UnitTokens[m].lit);
    }
    assert IsBoundary(s, i) by {
      assert WordAt(s, i);
    }
    TokensEndFirst(s, i, UnitTokens, 5);
    MatchedTokenUpcased(s, i, i + 3);
  }
}
