/** The slice of the host DOM that `ElementPro` drives: one element's class
    set (`classList`), attribute table, child list and event listeners, and
    the native calls that change them. This is the collaborator the wrapper
    delegates to, modelled only as far as the wrapper observes it. */
module Dom {
  import opened JsText

  datatype Option<T> = None | Some(value: T)

  /** The identity of a listener function or `EventListener` object. */
  datatype Listener = Listener(id: nat)

  /** What `DOMTokenList.add` and `DOMTokenList.remove` accept: a token that
      is not empty and holds no ASCII whitespace. Anything else makes the
      native call throw (a `SyntaxError` or an `InvalidCharacterError`). */
  predicate ValidToken(t: string) {
    t != [] && forall k :: 0 <= k < |t| ==> !IsAsciiWhitespace(t[k])
  }

  /** What `setAttribute` accepts as a name (a valid attribute local name in
      the DOM standard): not empty and free of ASCII whitespace, NUL, `/`,
      `=` and `>`. Anything else makes it throw `InvalidCharacterError`. */
  predicate ValidAttrName(k: string) {
    k != [] && forall n :: 0 <= n < |k| ==>
      !IsAsciiWhitespace(k[n]) && k[n] != '\0' && k[n] != '/' && k[n] != '=' && k[n] != '>'
  }

  /** A native element. Its class set, attributes, children and listener set
      are the state the wrapper reads and changes. */
  class NativeElement {
    const tagName: string
    var classes: set<string>
    var attrs: map<string, string>
    var children: seq<NativeElement>
    var listeners: set<(string, Listener)>

    /** `document.createElement(tagName)`: a new element with nothing on it. */
    constructor (tagName: string)
      ensures this.tagName == tagName
      ensures classes == {} && attrs == map[] && children == [] && listeners == {}
    {
      this.tagName := tagName;
      classes, attrs, children, listeners := {}, map[], [], {};
    }

    /** `classList.add(t)`. */
    method AddToken(t: string)
      requires ValidToken(t)
      modifies this`classes
      ensures classes == old(classes) + {t}
    {
      classes := classes + {t};
    }

    /** `classList.remove(t)`. */
    method RemoveToken(t: string)
      requires ValidToken(t)
      modifies this`classes
      ensures classes == old(classes) - {t}
    {
      classes := classes - {t};
    }

    /** `setAttribute(k, v)`. */
    method SetAttribute(k: string, v: string)
      requires ValidAttrName(k)
      modifies this`attrs
      ensures attrs == old(attrs)[k := v]
    {
      attrs := attrs[k := v];
    }

    /** `removeAttribute(k)`: never throws, and an absent name is a no-op. */
    method RemoveAttribute(k: string)
      modifies this`attrs
      ensures attrs == old(attrs) - {k}
    {
      attrs := attrs - {k};
    }

    /** `appendChild(c)`, as a plain append to the child list. */
    method AppendChild(c: NativeElement)
      modifies this`children
      ensures children == old(children) + [c]
    {
      children := children + [c];
    }

    /** `addEventListener(t, l)`: the pair is added once; adding it again
        changes nothing. */
    method AddEventListener(t: string, l: Listener)
      modifies this`listeners
      ensures listeners == old(listeners) + {(t, l)}
    {
      listeners := listeners + {(t, l)};
    }

    /** `removeEventListener(t, l)`: with no listener (`undefined`), or one
        that is not attached for `t`, nothing changes. */
    method RemoveEventListener(t: string, l: Option<Listener>)
      modifies this`listeners
      ensures listeners == if l.Some? then old(listeners) - {(t, l.value)} else old(listeners)
    {
      if l.Some? {
        listeners := listeners - {(t, l.value)};
      }
    }
  }
}
