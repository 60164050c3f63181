/** Client code driving `ElementPro` through the documented behaviours,
    using only the methods' contracts. */
module Scenarios {
  import opened Dom
  import opened ClassNames
  import opened Registry
  import opened Element

  /** Binding a type twice keeps the first listener only. */
  method BindTwiceKeepsFirst(t: string, l1: Listener, l2: Listener) {
    var w := Div();
    w.On(t, l1);
    w.On(t, l2);
    assert w.registry == map[t := l1];
    assert w.element.listeners == {(t, l1)};
  }

  /** Unbinding a type that was never bound changes nothing. */
  method UnbindNeverBound(t: string, u: string, l: Listener)
    requires t != u
  {
    var w := Span();
    w.On(u, l);
    w.Unbind(OneType(t));
    assert w.registry == map[u := l];
    assert w.element.listeners == {(u, l)};
  }

  /** After three binds, a bare `unbind()` leaves no listener and an empty
      registry. */
  method UnbindAllAfterThree(t1: string, t2: string, t3: string, l1: Listener, l2: Listener, l3: Listener) {
    var w := Div();
    w.On(t1, l1);
    w.On(t2, l2);
    w.On(t3, l3);
    w.Unbind(AllTypes);
    assert w.registry == map[];
    assert w.element.listeners == {};
  }

  /** Toggling an absent class adds it; toggling again removes it. */
  method ToggleTwiceRestores(c: string)
    requires PlainToken(c)
  {
    var w := Div();
    SingleToken(c);
    w.ToggleClass(c);
    assert w.element.classes == {c};
    w.ToggleClass(c);
    assert w.element.classes == {};
  }

  /** `addChildren([null, wrapperA, nativeB, undefined])` appends wrapperA's
      element and nativeB, in that order. */
  method AppendSkipsFalsy() {
    var w := Div();
    var a := Img();
    var b := new NativeElement("p");
    SkipsFalsyEntries(a, b);
    w.AddChildren(ChildList([Falsy, Pro(a), Native(b), Falsy]));
    assert w.element.children == [a.element, b];
  }

  /** `addAttr('data-x', 5)` stores the string `"5"`. */
  method AttrNumber() {
    var w := Input();
    NumberFive();
    w.AddAttr("data-x", Num(5));
    assert w.element.attrs["data-x"] == "5";
  }
}
