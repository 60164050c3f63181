/** How `addClass`, `removeClass` and `toggleClass` turn their argument into
    the class tokens they hand to `classList`. */
module ClassNames {
  import opened JsText
  import opened Dom

  /** The argument of `addClass` and `removeClass`: an array of names, a
      space-separated string, or `undefined`. */
  datatype ClassArg = ClassList(names: seq<string>) | ClassString(text: string) | NoClass

  /** What the `forEach` walks over, before trimming: the array itself; the
      `split(' ')` pieces of a string that is not blank; nothing for a blank
      string or `undefined`. */
  function Pieces(arg: ClassArg): (r: seq<string>) {
    match arg
    case ClassList(names) => names
    case ClassString(s) => if |Trim(s)| > 0 then Split(s, ' ') else []
    case NoClass => []
  }

  function TrimAll(xs: seq<string>): (r: seq<string>)
    ensures |r| == |xs| && forall k :: 0 <= k < |xs| ==> r[k] == Trim(xs[k])
  {
    seq(|xs|, k requires 0 <= k < |xs| => Trim(xs[k]))
  }

  /** The tokens passed to `classList.add` or `classList.remove`, in order. */
  function ClassTokens(arg: ClassArg): (r: seq<string>) {
    TrimAll(Pieces(arg))
  }

  function ToSet<T>(xs: seq<T>): (r: set<T>) {
    set x | x in xs
  }

  /** The native calls succeed: every token is non-empty and free of ASCII
      whitespace. A doubled, leading or trailing space in a string argument
      yields an empty piece and breaks this. */
  predicate TokensValid(arg: ClassArg) {
    forall t :: t in ClassTokens(arg) ==> ValidToken(t)
  }

  /** A single class name as a caller would write it: a valid token with no
      JavaScript whitespace at either end. */
  predicate PlainToken(c: string) {
    ValidToken(c) && !IsJsWhitespace(c[0]) && !IsJsWhitespace(c[|c| - 1])
  }

  /** The class set after `toggleClass(c)`: `hasClass(c) ? removeClass(c) :
      addClass(c)`, both with the string `c`. */
  function Toggled(cs: set<string>, c: string): (r: set<string>) {
    if c in cs then cs - ToSet(ClassTokens(ClassString(c)))
    else cs + ToSet(ClassTokens(ClassString(c)))
  }

  // ---------------------------------------------------------------------
  // Helpers for the loops

  lemma {:induction false} ToSetSnoc<T>(xs: seq<T>, x: T)
    ensures ToSet(xs + [x]) == ToSet(xs) + {x}
  {
  }

  lemma {:induction false} ToSetStep<T>(xs: seq<T>, i: nat)
    requires i < |xs|
    ensures ToSet(xs[..i + 1]) == ToSet(xs[..i]) + {xs[i]}
  {
    assert xs[..i + 1] == xs[..i] + [xs[i]];
    ToSetSnoc(xs[..i], xs[i]);
  }

  lemma {:induction false} TrimAllSnoc(xs: seq<string>, i: nat)
    requires i < |xs|
    ensures TrimAll(xs[..i + 1]) == TrimAll(xs[..i]) + [Trim(xs[i])]
  {
    var a, b := TrimAll(xs[..i + 1]), TrimAll(xs[..i]);
    assert |a| == |b| + 1;
    forall k | 0 <= k < |a| ensures a[k] == (b + [Trim(xs[i])])[k] {
      assert xs[..i + 1][k] == xs[k];
      if k < i {
        assert xs[..i][k] == xs[k];
      }
    }
  }

  lemma {:induction false} ToSetTrimAllStep(xs: seq<string>, i: nat)
    requires i < |xs|
    ensures ToSet(TrimAll(xs[..i + 1])) == ToSet(TrimAll(xs[..i])) + {Trim(xs[i])}
  {
    TrimAllSnoc(xs, i);
    ToSetSnoc(TrimAll(xs[..i]), Trim(xs[i]));
  }

  // ---------------------------------------------------------------------
  // What each form of argument names

  /** An array names each of its entries, trimmed, in order. */
  lemma {:induction false} ListTokens(names: seq<string>)
    ensures ClassTokens(ClassList(names)) == TrimAll(names)
    ensures ToSet(ClassTokens(ClassList(names))) == set k | 0 <= k < |names| :: Trim(names[k])
  {
    var r := ClassTokens(ClassList(names));
    forall t | t in ToSet(r) ensures t in set k | 0 <= k < |names| :: Trim(names[k]) {
      var k :| 0 <= k < |r| && r[k] == t;
    }
  }

  /** `undefined` and a blank string name nothing. */
  lemma {:induction false} BlankTokens(s: string)
    requires AllWhitespace(s)
    ensures ClassTokens(ClassString(s)) == [] && ClassTokens(NoClass) == []
  {
    TrimEmptyIffBlank(s);
  }

  /** A single plain name names exactly itself. */
  lemma {:induction false} SingleToken(c: string)
    requires PlainToken(c)
    ensures ClassTokens(ClassString(c)) == [c]
  {
    assert ' ' !in c;
    SplitWithoutSeparator(c, ' ');
    TrimOfTrimmed(c);
  }

  /** A string of plain names joined by single spaces names exactly those
      names, in order: `addClass("a b c")` is `addClass(["a", "b", "c"])`. */
  lemma {:induction false} SpaceSeparatedTokens(names: seq<string>)
    requires |names| >= 1
    requires forall c :: c in names ==> PlainToken(c)
    ensures ClassTokens(ClassString(Join(names, ' '))) == names
    ensures TokensValid(ClassString(Join(names, ' ')))
  {
    var s := Join(names, ' ');
    assert names[0] in names;
    assert forall c :: c in names ==> ' ' !in c;
    assert Split(s, ' ') == names by {
      SplitJoin(names, ' ');
    }
    assert |Trim(s)| > 0 by {
      JoinStartsWith(names, ' ');
      TrimEmptyIffBlank(s);
    }
    assert Pieces(ClassString(s)) == names;
    forall k | 0 <= k < |names| ensures Trim(names[k]) == names[k] {
      assert names[k] in names;
      TrimOfTrimmed(names[k]);
    }
    assert TrimAll(names) == names;
  }

  lemma {:induction false} JoinStartsWith(parts: seq<string>, sep: char)
    requires |parts| >= 1 && parts[0] != []
    ensures Join(parts, sep) != [] && Join(parts, sep)[0] == parts[0][0]
  {
  }

  /** Every token that any argument names is a trimmed string. */
  lemma {:induction false} TokensAreTrimmed(arg: ClassArg)
    ensures forall t :: t in ClassTokens(arg) ==> Trim(t) == t
  {
    forall t | t in ClassTokens(arg) ensures Trim(t) == t {
      var k :| 0 <= k < |ClassTokens(arg)| && ClassTokens(arg)[k] == t;
      TrimIdempotent(Pieces(arg)[k]);
    }
  }

  // ---------------------------------------------------------------------
  // toggleClass

  /** On a plain name, toggling flips that name's membership and touches no
      other class. */
  lemma {:induction false} ToggleFlips(cs: set<string>, c: string)
    requires PlainToken(c)
    ensures c in Toggled(cs, c) <==> c !in cs
    ensures Toggled(cs, c) - {c} == cs - {c}
  {
    SingleToken(c);
    assert ToSet([c]) == {c};
  }

  /** On a plain name, toggling twice restores the class set. */
  lemma {:induction false} ToggleTwice(cs: set<string>, c: string)
    requires PlainToken(c)
    ensures Toggled(Toggled(cs, c), c) == cs
  {
    SingleToken(c);
    assert ToSet([c]) == {c};
  }

  /** `toggleClass` is not a toggle for a string of several names: the
      membership test on the whole string fails (a class never holds a
      space), so both calls add the names and the second changes nothing. */
  lemma {:induction false} ToggleSeveralNamesOnlyAdds(cs: set<string>, names: seq<string>)
    requires |names| >= 2
    requires forall c :: c in names ==> PlainToken(c)
    requires forall c :: c in cs ==> ValidToken(c)
    ensures Toggled(cs, Join(names, ' ')) == cs + ToSet(names)
    ensures Toggled(Toggled(cs, Join(names, ' ')), Join(names, ' ')) == cs + ToSet(names)
  {
    var s := Join(names, ' ');
    SpaceSeparatedTokens(names);
    var k := |names[0]|;
    assert s == names[0] + [' '] + Join(names[1..], ' ');
    assert s[k] == ' ';
    assert !ValidToken(s) by {
      assert IsAsciiWhitespace(s[k]);
    }
    assert s !in cs;
    assert forall c :: c in names ==> ValidToken(c);
    assert s !in ToSet(names);
  }

  /** A class made only of characters such as NO-BREAK SPACE is a valid
      token that `trim` empties, so toggling it changes nothing, whether it
      is present or not. */
  lemma {:induction false} ToggleBlankTokenIsNoOp(cs: set<string>, c: string)
    requires ValidToken(c) && AllWhitespace(c)
    ensures Toggled(cs, c) == cs
  {
    BlankTokens(c);
  }

  /** Such classes exist: a lone NO-BREAK SPACE is one. */
  lemma {:induction false} NoBreakSpaceIsBlankToken()
    ensures ValidToken("\U{A0}") && AllWhitespace("\U{A0}")
  {
  }
}
