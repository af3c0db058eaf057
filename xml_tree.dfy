/** The XML document as the serde/quick_xml deserializer presents it to the derived
    `Deserialize` implementations of the control messages, and the rules those derived
    implementations follow: a struct field named after a child element must occur
    exactly once, an attribute field must be present, anything unnamed is ignored. */
module XmlTree {
  import opened Common
  import Decimal

  /** An element: its local name (namespace prefix already stripped, so `<s:Body>` is
      "Body"), its attributes keyed by the name serde matches ("encodingStyle",
      "xmlns:s", "xmlns:u"), its child elements in document order, and its text. */
  datatype Element = Element(name: string, attrs: map<string, string>, children: seq<Element>, text: string)

  /** The deserializer's error (quick_xml `DeError`), reduced to its causes. */
  datatype DeError =
    | MissingField(field: string)
    | DuplicateField(field: string)
    | UnknownVariant(variant: string)
    | InvalidInteger(text: string)
    | InvalidBoolean(text: string)
    | UnexpectedStart(name: string)

  datatype Result<+T> = Ok(value: T) | Err(error: DeError) {
    predicate IsFailure() { Err? }

    function PropagateFailure<U>(): Result<U>
      requires Err?
    {
      Err(error)
    }

    function Extract(): T
      requires Ok?
    {
      value
    }
  }

  /** An element with text and nothing else, as `<InstanceID>0</InstanceID>`. */
  function Leaf(name: string, text: string): Element
  {
    Element(name, map[], [], text)
  }

  /** The children called `name`, in document order. */
  function Named(children: seq<Element>, name: string): (r: seq<Element>)
    ensures |r| <= |children|
  {
    if children == [] then []
    else (if children[0].name == name then [children[0]] else []) + Named(children[1..], name)
  }

  /** A struct field read from a child element: present exactly once, or an error. */
  function Child(e: Element, field: string): (r: Result<Element>)
    ensures r.Ok? <==> |Named(e.children, field)| == 1
    ensures r.Err? ==> r.error == (if Named(e.children, field) == [] then MissingField(field) else DuplicateField(field))
  {
    var found := Named(e.children, field);
    if |found| == 0 then Err(MissingField(field))
    else if |found| > 1 then Err(DuplicateField(field))
    else Ok(found[0])
  }

  /** A `String` struct field read from an attribute (`@name` in serde). */
  function Attribute(e: Element, key: string): Result<string>
  {
    if key in e.attrs then Ok(e.attrs[key]) else Err(MissingField("@" + key))
  }

  /** The white space XML allows between markup. quick_xml drops text made only of
      it, and cuts it from both ends of any other text. */
  predicate IsXmlSpace(c: char)
  {
    c == ' ' || c == '\t' || c == '\r' || c == '\n'
  }

  predicate Blank(s: string)
  {
    forall i | 0 <= i < |s| :: IsXmlSpace(s[i])
  }

  /** The enum held by a `$value` field: the one element inside the container. Text
      that is not white space is content too, so beside an element it makes a second
      value, and alone it is taken for the name of a unit variant, which these enums
      do not have. */
  function Content(container: Element): (r: Result<Element>)
    ensures r.Ok? <==> |container.children| == 1 && Blank(container.text)
    ensures r.Ok? ==> r.value == container.children[0]
  {
    var values := |container.children| + (if Blank(container.text) then 0 else 1);
    if values == 0 then Err(MissingField("$value"))
    else if values > 1 then Err(DuplicateField("$value"))
    else if |container.children| == 0 then Err(UnknownVariant(container.text))
    else Ok(container.children[0])
  }

  /** Text that neither starts nor ends with XML white space. */
  predicate IsTrimmed(s: string)
  {
    s == [] || (!IsXmlSpace(s[0]) && !IsXmlSpace(s[|s| - 1]))
  }

  /** The text a simple-typed field is given: quick_xml removes the XML white space
      at both ends of an element's text before the field reads it. */
  function XmlTrim(s: string): (r: string)
    ensures IsTrimmed(r) && |r| <= |s|
    ensures IsTrimmed(s) ==> r == s
    decreases |s|
  {
    if s != [] && IsXmlSpace(s[0]) then XmlTrim(s[1..])
    else if s != [] && IsXmlSpace(s[|s| - 1]) then XmlTrim(s[..|s| - 1])
    else s
  }

  /** The trimmed text is the input with only XML white space cut from either end. */
  lemma {:induction false} XmlTrimSlice(s: string) returns (i: nat)
    ensures i + |XmlTrim(s)| <= |s|
    ensures forall k | 0 <= k < |XmlTrim(s)| :: XmlTrim(s)[k] == s[i + k]
    ensures forall k | 0 <= k < i :: IsXmlSpace(s[k])
    ensures forall k | i + |XmlTrim(s)| <= k < |s| :: IsXmlSpace(s[k])
    decreases |s|
  {
    var r := XmlTrim(s);
    if s != [] && IsXmlSpace(s[0]) {
      var t := s[1..];
      assert r == XmlTrim(t);
      var i' := XmlTrimSlice(t);
      i := i' + 1;
      forall k | 0 <= k < |r| ensures r[k] == s[i + k] {
        assert t[i' + k] == s[i + k];
      }
      forall k | 0 < k < i ensures IsXmlSpace(s[k]) {
        assert t[k - 1] == s[k];
      }
      forall k | i + |r| <= k < |s| ensures IsXmlSpace(s[k]) {
        assert t[k - 1] == s[k];
      }
    } else if s != [] && IsXmlSpace(s[|s| - 1]) {
      var t := s[..|s| - 1];
      assert r == XmlTrim(t);
      i := XmlTrimSlice(t);
      forall k | 0 <= k < |r| ensures r[k] == s[i + k] {
        assert t[i + k] == s[i + k];
      }
      if i > 0 {
        // t starts with s[0], which is not white space
        assert false;
      }
      forall k | i + |r| <= k < |s| - 1 ensures IsXmlSpace(s[k]) {
        assert t[k] == s[k];
      }
    } else {
      i := 0;
    }
  }

  /** Only text made of XML white space trims to nothing. */
  lemma {:induction false} XmlTrimEmptyIffBlank(s: string)
    ensures XmlTrim(s) == [] <==> Blank(s)
    decreases |s|
  {
    var i := XmlTrimSlice(s);
    if XmlTrim(s) != [] {
      assert XmlTrim(s)[0] == s[i];
    }
  }

  /** A number as `Display` writes it has no white space to trim. */
  lemma DisplayedTrimmed(n: nat)
    ensures XmlTrim(Decimal.NatToDecimal(n)) == Decimal.NatToDecimal(n)
  {
    var s := Decimal.NatToDecimal(n);
    assert Decimal.IsDigit(s[0]) && Decimal.IsDigit(s[|s| - 1]);
  }

  /** A text field that decodes occurs once, and its value is that child's trimmed text. */
  lemma TextFieldOk(e: Element, field: string)
    requires TextField(e, field).Ok?
    ensures Once(e, field) && TextField(e, field).value == FieldText(e, field)
  {
  }

  /** A field whose one element holds only text reads that text, trimmed. */
  lemma LeafTextField(e: Element, field: string, t: string)
    requires Named(e.children, field) == [Leaf(field, t)]
    ensures TextField(e, field) == Ok(XmlTrim(t))
  {
  }

  /** A field whose one element holds text with no white space at its ends reads
      that text unchanged. */
  lemma TrimmedTextField(e: Element, field: string, t: string)
    requires Named(e.children, field) == [Leaf(field, t)] && IsTrimmed(t)
    ensures TextField(e, field) == Ok(t)
  {
  }

  /** A `bool` field spelled "true" or "false" reads back that flag. */
  lemma SpelledBoolField(e: Element, field: string, b: bool)
    requires Named(e.children, field) == [Leaf(field, if b then "true" else "false")]
    ensures BoolField(e, field) == Ok(b)
  {
    var t := if b then "true" else "false";
    assert IsTrimmed(t);
    TrimmedTextField(e, field, t);
  }

  /** A `u32` field holding the number as `Display` writes it reads back that number. */
  lemma DisplayedU32Field(e: Element, field: string, n: U32)
    requires Named(e.children, field) == [Leaf(field, Decimal.NatToDecimal(n))]
    ensures U32Field(e, field) == Ok(n)
  {
    Decimal.ParseDisplayed(n, U32_BOUND);
    DisplayedTrimmed(n);
  }

  /** A `u16` field holding the number as `Display` writes it reads back that number. */
  lemma DisplayedU16Field(e: Element, field: string, n: U16)
    requires Named(e.children, field) == [Leaf(field, Decimal.NatToDecimal(n))]
    ensures U16Field(e, field) == Ok(n)
  {
    Decimal.ParseDisplayed(n, U16_BOUND);
    DisplayedTrimmed(n);
  }

  /** White space put around a text is exactly what trimming takes away. */
  lemma {:induction false} XmlTrimPadded(p: string, t: string, q: string)
    requires Blank(p) && Blank(q) && IsTrimmed(t)
    ensures XmlTrim(p + t + q) == t
    decreases |p| + |q|
  {
    var s := p + t + q;
    if p != [] {
      assert s[0] == p[0];
      assert s[1..] == p[1..] + t + q;
      XmlTrimPadded(p[1..], t, q);
    } else if t == [] && q != [] {
      assert s == q && s[1..] == [] + t + q[1..];
      XmlTrimPadded(p, t, q[1..]);
    } else if q != [] {
      assert s[0] == t[0] && s[|s| - 1] == q[|q| - 1];
      assert s[..|s| - 1] == p + t + q[..|q| - 1];
      XmlTrimPadded(p, t, q[..|q| - 1]);
    } else {
      assert s == t;
    }
  }

  /** Trimming twice is trimming once. */
  lemma XmlTrimIdempotent(s: string)
    ensures XmlTrim(XmlTrim(s)) == XmlTrim(s)
  {
  }

  /** The field of that name occurs exactly once and holds text only, no element. */
  predicate Once(e: Element, field: string)
  {
    var found := Named(e.children, field);
    |found| == 1 && found[0].children == []
  }

  /** The text the one child called `field` gives its field, trimmed. */
  function FieldText(e: Element, field: string): string
    requires |Named(e.children, field)| == 1
  {
    XmlTrim(Named(e.children, field)[0].text)
  }

  /** A field of a simple type (`String`, a number, `bool`, a unit enum) is read from
      its element's text, trimmed; an element nested inside it is an error. */
  function TextField(e: Element, field: string): (r: Result<string>)
    ensures r.Ok? <==> Child(e, field).Ok? && Child(e, field).value.children == []
    ensures r.Ok? ==> r.value == XmlTrim(Child(e, field).value.text)
  {
    var c :- Child(e, field);
    if c.children != [] then Err(UnexpectedStart(c.children[0].name)) else Ok(XmlTrim(c.text))
  }

  /** A `u32` field. */
  function U32Field(e: Element, field: string): (r: Result<U32>)
    ensures r.Ok? <==> TextField(e, field).Ok? && Decimal.ParseUnsigned(TextField(e, field).value, U32_BOUND).Some?
    ensures r.Ok? ==> Decimal.ParseUnsigned(TextField(e, field).value, U32_BOUND) == Some(r.value as nat)
  {
    var t :- TextField(e, field);
    match Decimal.ParseUnsigned(t, U32_BOUND)
    case None => Err(InvalidInteger(t))
    case Some(n) => Ok(n)
  }

  /** A `u16` field. */
  function U16Field(e: Element, field: string): (r: Result<U16>)
    ensures r.Ok? <==> TextField(e, field).Ok? && Decimal.ParseUnsigned(TextField(e, field).value, U16_BOUND).Some?
    ensures r.Ok? ==> Decimal.ParseUnsigned(TextField(e, field).value, U16_BOUND) == Some(r.value as nat)
  {
    var t :- TextField(e, field);
    match Decimal.ParseUnsigned(t, U16_BOUND)
    case None => Err(InvalidInteger(t))
    case Some(n) => Ok(n)
  }

  /** quick_xml's spelling of `bool`: "true" or "1", "false" or "0"; nothing else. */
  function ParseBool(s: string): (r: Result<bool>)
    ensures r.Ok? <==> s in {"true", "1", "false", "0"}
    ensures r.Ok? ==> (r.value <==> s in {"true", "1"})
  {
    if s == "true" || s == "1" then Ok(true)
    else if s == "false" || s == "0" then Ok(false)
    else Err(InvalidBoolean(s))
  }

  /** A `bool` field. */
  function BoolField(e: Element, field: string): Result<bool>
  {
    var t :- TextField(e, field);
    ParseBool(t)
  }

  /** `Named` looks at the children one by one, in order. */
  lemma NamedCons(x: Element, rest: seq<Element>, name: string)
    ensures Named([x] + rest, name) == (if x.name == name then [x] else []) + Named(rest, name)
  {
    assert ([x] + rest)[1..] == rest;
  }

  /** No child called `name`: nothing is found. */
  lemma NamedAbsent(children: seq<Element>, name: string)
    requires forall j | 0 <= j < |children| :: children[j].name != name
    ensures Named(children, name) == []
  {
  }

  /** A child whose name no other child has is found alone. */
  lemma {:induction false} NamedUnique(children: seq<Element>, i: nat)
    requires i < |children|
    requires forall j | 0 <= j < |children| && j != i :: children[j].name != children[i].name
    ensures Named(children, children[i].name) == [children[i]]
  {
    var name := children[i].name;
    var rest := children[1..];
    if i == 0 {
      NamedAbsent(rest, name);
    } else {
      forall j | 0 <= j < |rest| && j != i - 1 ensures rest[j].name != rest[i - 1].name {
        assert rest[j] == children[j + 1];
      }
      NamedUnique(rest, i - 1);
    }
  }
}
