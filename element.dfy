/** `ElementPro`: a chainable wrapper that owns one native element and an
    event registry. Every method changes the native element's class set,
    attribute table, child list or listener set, and the registry, and no
    other state. Chaining (`return this`) is left implicit: each method is
    called on the wrapper it would return. */
module Element {
  import opened JsText
  import opened Dom
  import opened ClassNames
  import opened Registry

  /** The value of `addAttr`: a string, a boolean, or a number with an
      integral value. */
  datatype AttrValue = Str(s: string) | Flag(b: bool) | Num(n: int)

  /** The values whose `toString` the model states: every string and
      boolean, and the numbers that are safe integers. */
  predicate PrintsExactly(v: AttrValue) {
    v.Num? ==> -MaxSafeInteger <= v.n <= MaxSafeInteger
  }

  /** `value.toString()`. */
  function AttrText(v: AttrValue): (r: string)
    requires PrintsExactly(v)
  {
    match v
    case Str(s) => s
    case Flag(b) => if b then "true" else "false"
    case Num(n) => IntToString(n)
  }

  /** The argument of `removeAttr`: an array of names or one name. */
  datatype KeyArg = KeyList(keys: seq<string>) | OneKey(key: string)

  /** One entry of the array given to `addChildren`: a wrapper, a native
      element, a falsy value (`null`, `undefined`, `0`, `''`, `false`), or a
      truthy value of any other kind. */
  datatype Child = Pro(w: ElementPro) | Native(e: NativeElement) | Falsy | Other

  /** The argument of `addChildren`: an array, or anything else. */
  datatype ChildrenArg = ChildList(items: seq<Child>) | NotAList

  /** The argument of `unbind`: nothing, an array of event types, or one
      type. */
  datatype UnbindArg = AllTypes | TypeList(types: seq<string>) | OneType(t: string)

  /** `elements.filter(Boolean)`: the entries that are not falsy, in their
      original order (`TruthyKeepsExactly`, `TruthyAppend`). */
  function Truthy(xs: seq<Child>): (r: seq<Child>)
    ensures forall c :: c in r ==> c in xs && !c.Falsy?
  {
    if xs == [] then []
    else Truthy(xs[..|xs| - 1]) + (if xs[|xs| - 1].Falsy? then [] else [xs[|xs| - 1]])
  }

  /** The native element one entry contributes: a wrapper's element, a
      native element itself, otherwise nothing. */
  function Resolve(c: Child): (r: seq<NativeElement>) {
    if c.Pro? then [c.w.GetElm()] else if c.Native? then [c.e] else []
  }

  /** The native elements `addChildren` appends for `xs`, in order. */
  function ChildElements(xs: seq<Child>): (r: seq<NativeElement>) {
    if xs == [] then [] else ChildElements(xs[..|xs| - 1]) + Resolve(xs[|xs| - 1])
  }

  class ElementPro {
    /** The owned native element (`element`); it is never replaced. */
    const element: NativeElement
    /** `eventsRegistry`. */
    var registry: EventRegistry

    /** A wrapper with nothing on its element and an empty registry. */
    ghost predicate Blank()
      reads this, element
    {
      && element.classes == {} && element.attrs == map[] && element.children == []
      && element.listeners == {} && registry == map[]
    }

    /** Every pair the registry records is attached on the element. */
    ghost predicate Attached()
      reads this, element
    {
      Entries(registry) <= element.listeners
    }

    /** The element's listeners are exactly the registry's pairs: nothing
        but the wrapper has attached or detached a listener. */
    ghost predicate AttachedExactly()
      reads this, element
    {
      element.listeners == Entries(registry)
    }

    /** `new ElementPro(tagName)`, with `tagName` defaulting to `'div'`. */
    constructor (tagName: string := "div")
      ensures fresh(element) && element.tagName == tagName
      ensures Blank() && Attached() && AttachedExactly()
    {
      element := new NativeElement(tagName);
      registry := map[];
    }

    /** `getElm()`: the element the constructor created. It is never
        replaced, so every call returns the same object. */
    function GetElm(): (e: NativeElement)
      ensures e == element
    {
      element
    }

    /** `isElmPro(c)`: `c instanceof ElementPro`. It holds for wrappers only,
        never for a native element or any other value, and a wrapper is what
        `addChildren` unwraps with `getElm()`. */
    predicate IsElmPro(c: Child)
      ensures IsElmPro(c) <==> c.Pro?
      ensures IsElmPro(c) ==> !c.Native? && !c.Falsy? && Resolve(c) == [c.w.element]
    {
      c.Pro?
    }

    /** `hasClass(c)`: `classList.contains(c)`. */
    method HasClass(c: string) returns (b: bool)
      ensures b <==> c in element.classes
    {
      b := c in element.classes;
    }

    /** `addClass(arg)`. */
    method AddClass(arg: ClassArg)
      requires TokensValid(arg)
      modifies element`classes
      ensures element.classes == old(element.classes) + ToSet(ClassTokens(arg))
    {
      var pieces := Pieces(arg);
      var i := 0;
      while i < |pieces|
        invariant 0 <= i <= |pieces|
        invariant element.classes == old(element.classes) + ToSet(TrimAll(pieces[..i]))
      {
        assert ClassTokens(arg)[i] in ClassTokens(arg);
        element.AddToken(Trim(pieces[i]));
        ToSetTrimAllStep(pieces, i);
        i := i + 1;
      }
      assert pieces[..i] == pieces;
    }

    /** `removeClass(arg)`. */
    method RemoveClass(arg: ClassArg)
      requires TokensValid(arg)
      modifies element`classes
      ensures element.classes == old(element.classes) - ToSet(ClassTokens(arg))
    {
      var pieces := Pieces(arg);
      var i := 0;
      while i < |pieces|
        invariant 0 <= i <= |pieces|
        invariant element.classes == old(element.classes) - ToSet(TrimAll(pieces[..i]))
      {
        assert ClassTokens(arg)[i] in ClassTokens(arg);
        element.RemoveToken(Trim(pieces[i]));
        ToSetTrimAllStep(pieces, i);
        i := i + 1;
      }
      assert pieces[..i] == pieces;
    }

    /** `toggleClass(c)`: `hasClass(c) ? removeClass(c) : addClass(c)`. */
    method ToggleClass(c: string)
      requires TokensValid(ClassString(c))
      modifies element`classes
      ensures element.classes == Toggled(old(element.classes), c)
    {
      var has := HasClass(c);
      if has {
        RemoveClass(ClassString(c));
      } else {
        AddClass(ClassString(c));
      }
    }

    /** `addAttr(k, v)`: `setAttribute(k, v.toString())`. */
    method AddAttr(k: string, v: AttrValue)
      requires ValidAttrName(k) && PrintsExactly(v)
      modifies element`attrs
      ensures element.attrs == old(element.attrs)[k := AttrText(v)]
    {
      element.SetAttribute(k, AttrText(v));
    }

    /** `removeAttr(arg)`. */
    method RemoveAttr(arg: KeyArg)
      modifies element`attrs
      ensures element.attrs == old(element.attrs) - match arg
        case KeyList(keys) => ToSet(keys)
        case OneKey(k) => {k}
    {
      match arg {
        case KeyList(keys) =>
          var i := 0;
          while i < |keys|
            invariant 0 <= i <= |keys|
            invariant element.attrs == old(element.attrs) - ToSet(keys[..i])
          {
            element.RemoveAttribute(keys[i]);
            ToSetStep(keys, i);
            i := i + 1;
          }
          assert keys[..i] == keys;
        case OneKey(k) =>
          element.RemoveAttribute(k);
      }
    }

    /** `addChildren(arg)`. */
    method AddChildren(arg: ChildrenArg)
      modifies element`children
      ensures element.children == old(element.children) + match arg
        case ChildList(items) => ChildElements(items)
        case NotAList => []
    {
      if arg.ChildList? {
        var kept := Truthy(arg.items);
        var i := 0;
        while i < |kept|
          invariant 0 <= i <= |kept|
          invariant element.children == old(element.children) + ChildElements(kept[..i])
        {
          var c := kept[i];
          if IsElmPro(c) {
            element.AppendChild(c.w.GetElm());
          } else if c.Native? {
            element.AppendChild(c.e);
          }
          assert kept[..i + 1][..i] == kept[..i];
          i := i + 1;
        }
        assert kept[..i] == kept;
        TruthySameElements(arg.items);
      }
    }

    /** `on(t, l)`: binds `l` only when the registry has no listener for
        `t`; otherwise the call changes nothing. */
    method On(t: string, l: Listener)
      modifies this`registry, element`listeners
      ensures old(t in registry) ==> registry == old(registry) && element.listeners == old(element.listeners)
      ensures old(t !in registry) ==>
        registry == old(registry)[t := l] && element.listeners == old(element.listeners) + {(t, l)}
      ensures old(Attached()) ==> Attached()
      ensures old(AttachedExactly()) ==> AttachedExactly()
    {
      if t !in registry {
        EntriesAfterBind(registry, t, l);
        element.AddEventListener(t, l);
        registry := registry[t := l];
      }
    }

    /** `unbind(arg)`: detaches and forgets every registered type, the
        listed types, or the one type; types not registered are skipped. */
    method Unbind(arg: UnbindArg)
      modifies this`registry, element`listeners
      ensures registry == match arg
        case AllTypes => map[]
        case TypeList(ts) => old(registry) - ToSet(ts)
        case OneType(t) => old(registry) - {t}
      ensures element.listeners == old(element.listeners) - match arg
        case AllTypes => Entries(old(registry))
        case TypeList(ts) => Bound(old(registry), ToSet(ts))
        case OneType(t) => Bound(old(registry), {t})
      ensures old(Attached()) ==> Attached()
      ensures old(AttachedExactly()) ==> AttachedExactly()
    {
      ghost var reg := registry;
      match arg {
        case AllTypes =>
          var pending := registry.Keys;
          while pending != {}
            invariant pending <= registry.Keys && registry == reg
            invariant element.listeners == old(element.listeners) - Bound(reg, reg.Keys - pending)
            decreases pending
          {
            var t :| t in pending;
            element.RemoveEventListener(t, Some(registry[t]));
            BoundStep(reg, reg.Keys - pending, t);
            assert reg.Keys - pending + {t} == reg.Keys - (pending - {t});
            pending := pending - {t};
          }
          BoundAll(reg);
          registry := map[];
          EntriesAfterUnbind(reg, reg.Keys);
          assert reg - reg.Keys == map[];
        case TypeList(ts) =>
          var i := 0;
          while i < |ts|
            invariant 0 <= i <= |ts|
            invariant registry == reg - ToSet(ts[..i])
            invariant element.listeners == old(element.listeners) - Bound(reg, ToSet(ts[..i]))
          {
            var t := ts[i];
            element.RemoveEventListener(t, Lookup(registry, t));
            registry := registry - {t};
            ToSetStep(ts, i);
            BoundStep(reg, ToSet(ts[..i]), t);
            i := i + 1;
          }
          assert ts[..i] == ts;
          EntriesAfterUnbind(reg, ToSet(ts));
        case OneType(t) =>
          element.RemoveEventListener(t, Lookup(registry, t));
          registry := registry - {t};
          BoundStep(reg, {}, t);
          EntriesAfterUnbind(reg, {t});
      }
    }
  }

  // -----------------------------------------------------------------------
  // What addChildren appends

  /** The entries of two arrays contribute in order. */
  lemma {:induction false} ChildElementsAppend(xs: seq<Child>, ys: seq<Child>)
    ensures ChildElements(xs + ys) == ChildElements(xs) + ChildElements(ys)
  {
    if ys != [] {
      var zs := xs + ys;
      assert zs[..|zs| - 1] == xs + ys[..|ys| - 1];
      ChildElementsAppend(xs, ys[..|ys| - 1]);
    } else {
      assert xs + ys == xs;
    }
  }

  /** An entry is kept exactly when it is in the input and is not falsy. */
  lemma {:induction false} TruthyKeepsExactly(xs: seq<Child>)
    ensures forall c :: c in Truthy(xs) <==> c in xs && !c.Falsy?
  {
    if xs != [] {
      var init, last := xs[..|xs| - 1], xs[|xs| - 1];
      TruthyKeepsExactly(init);
      assert xs == init + [last];
    }
  }

  /** Filtering keeps the order: what is kept of `xs + ys` is what is kept
      of `xs`, followed by what is kept of `ys`. */
  lemma {:induction false} TruthyAppend(xs: seq<Child>, ys: seq<Child>)
    ensures Truthy(xs + ys) == Truthy(xs) + Truthy(ys)
  {
    if ys == [] {
      assert xs + ys == xs;
    } else {
      var zs, init, last := xs + ys, ys[..|ys| - 1], ys[|ys| - 1];
      var tail := if last.Falsy? then [] else [last];
      assert zs[..|zs| - 1] == xs + init && zs[|zs| - 1] == last;
      assert Truthy(zs) == Truthy(xs + init) + tail;
      assert Truthy(ys) == Truthy(init) + tail;
      TruthyAppend(xs, init);
      assert Truthy(zs) == Truthy(xs) + Truthy(init) + tail;
    }
  }

  /** Dropping the falsy entries first changes nothing about what is
      appended. */
  lemma {:induction false} TruthySameElements(xs: seq<Child>)
    ensures ChildElements(Truthy(xs)) == ChildElements(xs)
  {
    if xs != [] {
      var init, last := xs[..|xs| - 1], xs[|xs| - 1];
      TruthySameElements(init);
      var tail := if last.Falsy? then [] else [last];
      ChildElementsAppend(Truthy(init), tail);
      if !last.Falsy? {
        assert tail[..0] == [];
      }
    }
  }

  /** Exactly the wrapper and native-element entries contribute, one element
      each: a wrapper its `getElm()`, a native element itself. */
  lemma {:induction false} ChildElementsFrom(xs: seq<Child>)
    ensures |ChildElements(xs)| <= |xs|
    ensures forall c :: c in xs && c.Pro? ==> c.w.element in ChildElements(xs)
    ensures forall c :: c in xs && c.Native? ==> c.e in ChildElements(xs)
    ensures forall e :: e in ChildElements(xs) ==>
      exists k :: 0 <= k < |xs| && Resolve(xs[k]) == [e]
  {
    if xs != [] {
      var init := xs[..|xs| - 1];
      ChildElementsFrom(init);
      forall e | e in ChildElements(xs)
        ensures exists k :: 0 <= k < |xs| && Resolve(xs[k]) == [e]
      {
        if e in ChildElements(init) {
          var k :| 0 <= k < |init| && Resolve(init[k]) == [e];
          assert xs[k] == init[k];
        } else {
          assert Resolve(xs[|xs| - 1]) == [e];
        }
      }
      forall c | c in xs ensures (c.Pro? ==> c.w.element in ChildElements(xs)) && (c.Native? ==> c.e in ChildElements(xs)) {
        if c in init {
        } else {
          assert c == xs[|xs| - 1];
        }
      }
    }
  }

  /** `[null, wrapperA, nativeB, undefined]` appends `wrapperA`'s element,
      then `nativeB`. */
  lemma {:induction false} SkipsFalsyEntries(a: ElementPro, b: NativeElement)
    ensures ChildElements([Falsy, Pro(a), Native(b), Falsy]) == [a.element, b]
  {
    var xs := [Falsy, Pro(a), Native(b), Falsy];
    assert ChildElements(xs[..1]) == [] by {
      assert xs[..1][..0] == [];
    }
    assert xs[..2][..1] == xs[..1];
    assert xs[..3][..2] == xs[..2];
    assert xs[..4][..3] == xs[..3];
    assert ChildElements(xs[..2]) == [a.element];
    assert ChildElements(xs[..3]) == [a.element, b];
    assert xs[..4] == xs;
  }

  // -----------------------------------------------------------------------
  // What addAttr stores

  /** A string is stored as it is, a boolean as `"true"` or `"false"`, and an
      integer as a signed decimal numeral that reads back as the integer. */
  lemma {:induction false} AttrTextMeaning(v: AttrValue)
    requires PrintsExactly(v)
    ensures v.Str? ==> AttrText(v) == v.s
    ensures v.Flag? ==> AttrText(v) == if v.b then "true" else "false"
    ensures v.Num? ==> ParseInt(AttrText(v)) == v.n
    ensures v.Num? ==> CanonicalNumeral(AttrText(v), v.n)
  {
    if v.Num? {
      IntToStringRoundTrip(v.n);
    }
  }

  /** While nothing but the wrapper has attached listeners, the element
      carries at most one wrapper-bound listener per event type. */
  lemma {:induction false} OneListenerPerType(w: ElementPro, t: string, l1: Listener, l2: Listener)
    requires w.AttachedExactly()
    requires (t, l1) in w.element.listeners && (t, l2) in w.element.listeners
    ensures l1 == l2
  {
    AtMostOnePerType(w.registry, t, l1, l2);
  }

  /** `addAttr('data-x', 5)` stores `"5"`. */
  lemma {:induction false} NumberFive()
    ensures AttrText(Num(5)) == "5"
  {
  }

  // -----------------------------------------------------------------------
  // The factories

  /** `Div()`. */
  method Div() returns (w: ElementPro)
    ensures fresh(w) && fresh(w.element) && w.element.tagName == "div" && w.Blank()
  {
    w := new ElementPro("div");
  }

  /** `Span()`. */
  method Span() returns (w: ElementPro)
    ensures fresh(w) && fresh(w.element) && w.element.tagName == "span" && w.Blank()
  {
    w := new ElementPro("span");
  }

  /** `Img()`. */
  method Img() returns (w: ElementPro)
    ensures fresh(w) && fresh(w.element) && w.element.tagName == "img" && w.Blank()
  {
    w := new ElementPro("img");
  }

  /** `Video()`. */
  method Video() returns (w: ElementPro)
    ensures fresh(w) && fresh(w.element) && w.element.tagName == "video" && w.Blank()
  {
    w := new ElementPro("video");
  }

  /** `Input()`. */
  method Input() returns (w: ElementPro)
    ensures fresh(w) && fresh(w.element) && w.element.tagName == "input" && w.Blank()
  {
    w := new ElementPro("input");
  }
}
