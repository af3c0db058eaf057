/** The AVTransport:1 control actions a renderer accepts in a SOAP 1.1 envelope: the
    closed set of fourteen actions and their argument records, decoded from the
    element tree. Every argument is kept as the text it was sent with, less the XML
    white space at its ends: unlike the RenderingControl actions, nothing here is
    checked beyond its presence. */
module AvTransportXml {
  import opened Common
  import opened XmlTree

  // The argument record of each action, fields in declaration order.
  datatype SetAVTransportURIArgs = SetAVTransportURIArgs(xmlnsU: string, instanceId: string, currentUri: string, currentUriMetaData: string)
  datatype SetNextAVTransportURIArgs = SetNextAVTransportURIArgs(xmlnsU: string, instanceId: string, nextUri: string, nextUriMetaData: string)
  /** The argument of the ten actions that take only an instance. */
  datatype Simple = Simple(xmlnsU: string, instanceId: string)
  datatype PlayArgs = PlayArgs(xmlnsU: string, speed: string, instanceId: string)
  /** `unit` is one of the seek modes of the standard ("REL_TIME", "TRACK_NR", ...),
      kept as text. */
  datatype SeekArgs = SeekArgs(xmlnsU: string, target: string, unit: string, instanceId: string)

  /** The actions of the AVTransport service. */
  datatype AvTransport =
    | SetAVTransportURI(setUri: SetAVTransportURIArgs)
    | SetNextAVTransportURI(setNextUri: SetNextAVTransportURIArgs)
    | GetMediaInfo(getMediaInfo: Simple)
    | GetTransportInfo(getTransportInfo: Simple)
    | GetPositionInfo(getPositionInfo: Simple)
    | GetDeviceCapabilities(getDeviceCapabilities: Simple)
    | GetTransportSettings(getTransportSettings: Simple)
    | Stop(stop: Simple)
    | Play(play: PlayArgs)
    | Pause(pause: Simple)
    | Seek(seek: SeekArgs)
    | Next(next: Simple)
    | Previous(previous: Simple)
    | GetCurrentTransportActions(getCurrentTransportActions: Simple)

  /** The `Body` container of the envelope. */
  datatype SBody = SBody(content: AvTransport)

  /** The SOAP envelope: two required attributes and the body. */
  datatype AvTransportEnvelope = AvTransportEnvelope(sEncodingStyle: string, xmlnsS: string, sBody: SBody)

  /** The element names of the ten actions whose argument is `Simple`. */
  const SimpleTags: set<string> := {
    "GetMediaInfo", "GetTransportInfo", "GetPositionInfo", "GetDeviceCapabilities", "GetTransportSettings",
    "Stop", "Pause", "Next", "Previous", "GetCurrentTransportActions"}

  /** The element names that select a variant. */
  const Tags: set<string> := SimpleTags + {"SetAVTransportURI", "SetNextAVTransportURI", "Play", "Seek"}

  /** The element name a variant is selected by. */
  function TagOf(a: AvTransport): (tag: string)
    ensures tag in Tags
    ensures tag in SimpleTags <==>
      (|| a.GetMediaInfo? || a.GetTransportInfo? || a.GetPositionInfo? || a.GetDeviceCapabilities?
       || a.GetTransportSettings? || a.Stop? || a.Pause? || a.Next? || a.Previous? || a.GetCurrentTransportActions?)
  {
    match a
    case SetAVTransportURI(_) => "SetAVTransportURI"
    case SetNextAVTransportURI(_) => "SetNextAVTransportURI"
    case GetMediaInfo(_) => "GetMediaInfo"
    case GetTransportInfo(_) => "GetTransportInfo"
    case GetPositionInfo(_) => "GetPositionInfo"
    case GetDeviceCapabilities(_) => "GetDeviceCapabilities"
    case GetTransportSettings(_) => "GetTransportSettings"
    case Stop(_) => "Stop"
    case Play(_) => "Play"
    case Pause(_) => "Pause"
    case Seek(_) => "Seek"
    case Next(_) => "Next"
    case Previous(_) => "Previous"
    case GetCurrentTransportActions(_) => "GetCurrentTransportActions"
  }

  /** The variant that carries a `Simple` argument under the given name. */
  function SimpleVariant(tag: string, x: Simple): (a: AvTransport)
    requires tag in SimpleTags
    ensures TagOf(a) == tag
  {
    if tag == "GetMediaInfo" then GetMediaInfo(x)
    else if tag == "GetTransportInfo" then GetTransportInfo(x)
    else if tag == "GetPositionInfo" then GetPositionInfo(x)
    else if tag == "GetDeviceCapabilities" then GetDeviceCapabilities(x)
    else if tag == "GetTransportSettings" then GetTransportSettings(x)
    else if tag == "Stop" then Stop(x)
    else if tag == "Pause" then Pause(x)
    else if tag == "Next" then Next(x)
    else if tag == "Previous" then Previous(x)
    else GetCurrentTransportActions(x)
  }

  /** The `Simple` argument of a variant that has one. */
  function SimpleOf(a: AvTransport): Simple
    requires TagOf(a) in SimpleTags
  {
    match a
    case GetMediaInfo(x) => x
    case GetTransportInfo(x) => x
    case GetPositionInfo(x) => x
    case GetDeviceCapabilities(x) => x
    case GetTransportSettings(x) => x
    case Stop(x) => x
    case Pause(x) => x
    case Next(x) => x
    case Previous(x) => x
    case GetCurrentTransportActions(x) => x
  }

  /** Takes the action out of the envelope, dropping the envelope's attributes. */
  function IntoInner(envelope: AvTransportEnvelope): AvTransport
  {
    envelope.sBody.content
  }

  function DecodeSetAVTransportURI(e: Element): Result<SetAVTransportURIArgs>
  {
    var xmlnsU :- Attribute(e, "xmlns:u");
    var instanceId :- TextField(e, "InstanceID");
    var currentUri :- TextField(e, "CurrentURI");
    var currentUriMetaData :- TextField(e, "CurrentURIMetaData");
    Ok(SetAVTransportURIArgs(xmlnsU, instanceId, currentUri, currentUriMetaData))
  }

  function DecodeSetNextAVTransportURI(e: Element): Result<SetNextAVTransportURIArgs>
  {
    var xmlnsU :- Attribute(e, "xmlns:u");
    var instanceId :- TextField(e, "InstanceID");
    var nextUri :- TextField(e, "NextURI");
    var nextUriMetaData :- TextField(e, "NextURIMetaData");
    Ok(SetNextAVTransportURIArgs(xmlnsU, instanceId, nextUri, nextUriMetaData))
  }

  function DecodeSimple(e: Element): Result<Simple>
  {
    var xmlnsU :- Attribute(e, "xmlns:u");
    var instanceId :- TextField(e, "InstanceID");
    Ok(Simple(xmlnsU, instanceId))
  }

  function DecodePlay(e: Element): Result<PlayArgs>
  {
    var xmlnsU :- Attribute(e, "xmlns:u");
    var speed :- TextField(e, "Speed");
    var instanceId :- TextField(e, "InstanceID");
    Ok(PlayArgs(xmlnsU, speed, instanceId))
  }

  function DecodeSeek(e: Element): Result<SeekArgs>
  {
    var xmlnsU :- Attribute(e, "xmlns:u");
    var target :- TextField(e, "Target");
    var unit :- TextField(e, "Unit");
    var instanceId :- TextField(e, "InstanceID");
    Ok(SeekArgs(xmlnsU, target, unit, instanceId))
  }

  /** The enum's derived `Deserialize`: the element's name selects the variant. */
  function DecodeAvTransport(e: Element): Result<AvTransport>
  {
    if e.name == "SetAVTransportURI" then var a :- DecodeSetAVTransportURI(e); Ok(SetAVTransportURI(a))
    else if e.name == "SetNextAVTransportURI" then var a :- DecodeSetNextAVTransportURI(e); Ok(SetNextAVTransportURI(a))
    else if e.name == "Play" then var a :- DecodePlay(e); Ok(Play(a))
    else if e.name == "Seek" then var a :- DecodeSeek(e); Ok(Seek(a))
    else if e.name in SimpleTags then var a :- DecodeSimple(e); Ok(SimpleVariant(e.name, a))
    else Err(UnknownVariant(e.name))
  }

  /** The envelope's derived `Deserialize`. The root element's own name is not checked. */
  function DecodeEnvelope(root: Element): Result<AvTransportEnvelope>
  {
    var encodingStyle :- Attribute(root, "encodingStyle");
    var xmlnsS :- Attribute(root, "xmlns:s");
    var body :- Child(root, "Body");
    var content :- Content(body);
    var action :- DecodeAvTransport(content);
    Ok(AvTransportEnvelope(encodingStyle, xmlnsS, SBody(action)))
  }

  /** `AVTransport::from_str`: decode the envelope, keep only its content. */
  function FromStr(root: Element): Result<AvTransport>
  {
    var envelope :- DecodeEnvelope(root);
    Ok(IntoInner(envelope))
  }

  // ---------------------------------------------------------------------------
  // The element tree the derived `Serialize` describes: the inverse of decoding.

  function ToElement(a: AvTransport): Element
  {
    match a
    case SetAVTransportURI(x) =>
      Element("SetAVTransportURI", map["xmlns:u" := x.xmlnsU],
        [Leaf("InstanceID", x.instanceId), Leaf("CurrentURI", x.currentUri), Leaf("CurrentURIMetaData", x.currentUriMetaData)], "")
    case SetNextAVTransportURI(x) =>
      Element("SetNextAVTransportURI", map["xmlns:u" := x.xmlnsU],
        [Leaf("InstanceID", x.instanceId), Leaf("NextURI", x.nextUri), Leaf("NextURIMetaData", x.nextUriMetaData)], "")
    case Play(x) =>
      Element("Play", map["xmlns:u" := x.xmlnsU], [Leaf("Speed", x.speed), Leaf("InstanceID", x.instanceId)], "")
    case Seek(x) =>
      Element("Seek", map["xmlns:u" := x.xmlnsU],
        [Leaf("Target", x.target), Leaf("Unit", x.unit), Leaf("InstanceID", x.instanceId)], "")
    case _ =>
      Element(TagOf(a), map["xmlns:u" := SimpleOf(a).xmlnsU], [Leaf("InstanceID", SimpleOf(a).instanceId)], "")
  }

  /** An envelope around one action, as the SOAP examples write it. */
  function EnvelopeToElement(envelope: AvTransportEnvelope): Element
  {
    Element("Envelope",
      map["xmlns:s" := envelope.xmlnsS, "encodingStyle" := envelope.sEncodingStyle],
      [Element("Body", map[], [ToElement(IntoInner(envelope))], "")], "")
  }

  /** Every text argument has no XML white space at either end; the namespace
      attribute is not text content and is not constrained. */
  predicate TextsTrimmed(a: AvTransport)
  {
    && IsTrimmed(InstanceId(a))
    && (a.SetAVTransportURI? ==> IsTrimmed(a.setUri.currentUri) && IsTrimmed(a.setUri.currentUriMetaData))
    && (a.SetNextAVTransportURI? ==> IsTrimmed(a.setNextUri.nextUri) && IsTrimmed(a.setNextUri.nextUriMetaData))
    && (a.Play? ==> IsTrimmed(a.play.speed))
    && (a.Seek? ==> IsTrimmed(a.seek.target) && IsTrimmed(a.seek.unit))
  }

  /** The action that comes back once `a` has been written out and read in again:
      each text argument loses the XML white space at its ends. Exactly the actions
      whose texts have none come back unchanged. */
  function Trimmed(a: AvTransport): (r: AvTransport)
    ensures TagOf(r) == TagOf(a) && XmlnsU(r) == XmlnsU(a) && InstanceId(r) == XmlTrim(InstanceId(a))
    ensures TextsTrimmed(r)
    ensures r == a <==> TextsTrimmed(a)
  {
    match a
    case SetAVTransportURI(x) =>
      SetAVTransportURI(x.(instanceId := XmlTrim(x.instanceId), currentUri := XmlTrim(x.currentUri),
        currentUriMetaData := XmlTrim(x.currentUriMetaData)))
    case SetNextAVTransportURI(x) =>
      SetNextAVTransportURI(x.(instanceId := XmlTrim(x.instanceId), nextUri := XmlTrim(x.nextUri),
        nextUriMetaData := XmlTrim(x.nextUriMetaData)))
    case Play(x) => Play(x.(speed := XmlTrim(x.speed), instanceId := XmlTrim(x.instanceId)))
    case Seek(x) =>
      Seek(x.(target := XmlTrim(x.target), unit := XmlTrim(x.unit), instanceId := XmlTrim(x.instanceId)))
    case GetMediaInfo(x) => GetMediaInfo(TrimSimple(x))
    case GetTransportInfo(x) => GetTransportInfo(TrimSimple(x))
    case GetPositionInfo(x) => GetPositionInfo(TrimSimple(x))
    case GetDeviceCapabilities(x) => GetDeviceCapabilities(TrimSimple(x))
    case GetTransportSettings(x) => GetTransportSettings(TrimSimple(x))
    case Stop(x) => Stop(TrimSimple(x))
    case Pause(x) => Pause(TrimSimple(x))
    case Next(x) => Next(TrimSimple(x))
    case Previous(x) => Previous(TrimSimple(x))
    case GetCurrentTransportActions(x) => GetCurrentTransportActions(TrimSimple(x))
  }

  function TrimSimple(x: Simple): Simple
  {
    x.(instanceId := XmlTrim(x.instanceId))
  }

  /** The ten `Simple` variants are trimmed alike. */
  lemma TrimmedSimple(a: AvTransport)
    requires TagOf(a) in SimpleTags
    ensures Trimmed(a) == SimpleVariant(TagOf(a), TrimSimple(SimpleOf(a)))
  {
  }

  // ---------------------------------------------------------------------------
  // The schema as a table: an independent statement of what decodes.

  /** Each action's child-element fields, in declaration order. */
  function Fields(tag: string): seq<string>
  {
    if tag == "SetAVTransportURI" then ["InstanceID", "CurrentURI", "CurrentURIMetaData"]
    else if tag == "SetNextAVTransportURI" then ["InstanceID", "NextURI", "NextURIMetaData"]
    else if tag == "Play" then ["Speed", "InstanceID"]
    else if tag == "Seek" then ["Target", "Unit", "InstanceID"]
    else if tag in SimpleTags then ["InstanceID"]
    else []
  }

  predicate Conforms(e: Element)
  {
    && e.name in Tags
    && "xmlns:u" in e.attrs
    && forall i | 0 <= i < |Fields(e.name)| :: Once(e, Fields(e.name)[i])
  }

  lemma SetAVTransportURIOk(e: Element)
    ensures DecodeSetAVTransportURI(e).Ok? <==>
      "xmlns:u" in e.attrs && Once(e, "InstanceID") && Once(e, "CurrentURI") && Once(e, "CurrentURIMetaData")
  {
  }

  lemma SetNextAVTransportURIOk(e: Element)
    ensures DecodeSetNextAVTransportURI(e).Ok? <==>
      "xmlns:u" in e.attrs && Once(e, "InstanceID") && Once(e, "NextURI") && Once(e, "NextURIMetaData")
  {
  }

  lemma PlayOk(e: Element)
    ensures DecodePlay(e).Ok? <==> "xmlns:u" in e.attrs && Once(e, "Speed") && Once(e, "InstanceID")
  {
  }

  lemma SeekOk(e: Element)
    ensures DecodeSeek(e).Ok? <==> "xmlns:u" in e.attrs && Once(e, "Target") && Once(e, "Unit") && Once(e, "InstanceID")
  {
  }

  lemma SimpleOk(e: Element)
    ensures DecodeSimple(e).Ok? <==> "xmlns:u" in e.attrs && Once(e, "InstanceID")
  {
  }

  /** The variant is the one the tag selects, with the arguments its decoder gives. */
  lemma SelectedVariant(e: Element)
    ensures e.name == "SetAVTransportURI" && DecodeSetAVTransportURI(e).Ok? ==>
      DecodeAvTransport(e) == Ok(SetAVTransportURI(DecodeSetAVTransportURI(e).value))
    ensures e.name == "SetNextAVTransportURI" && DecodeSetNextAVTransportURI(e).Ok? ==>
      DecodeAvTransport(e) == Ok(SetNextAVTransportURI(DecodeSetNextAVTransportURI(e).value))
    ensures e.name == "Play" && DecodePlay(e).Ok? ==> DecodeAvTransport(e) == Ok(Play(DecodePlay(e).value))
    ensures e.name == "Seek" && DecodeSeek(e).Ok? ==> DecodeAvTransport(e) == Ok(Seek(DecodeSeek(e).value))
    ensures e.name in SimpleTags && DecodeSimple(e).Ok? ==>
      DecodeAvTransport(e) == Ok(SimpleVariant(e.name, DecodeSimple(e).value))
  {
  }

  /** An action decodes exactly when its element conforms to the schema table: a known
      tag, the `xmlns:u` attribute, and every field exactly once. */
  lemma DecodeSucceedsIff(e: Element)
    ensures DecodeAvTransport(e).Ok? <==> Conforms(e)
  {
    var fs := Fields(e.name);
    var u := "xmlns:u" in e.attrs;
    if e.name == "SetAVTransportURI" {
      SetAVTransportURIOk(e);
      assert Conforms(e) <==> u && Once(e, fs[0]) && Once(e, fs[1]) && Once(e, fs[2]);
    } else if e.name == "SetNextAVTransportURI" {
      SetNextAVTransportURIOk(e);
      assert Conforms(e) <==> u && Once(e, fs[0]) && Once(e, fs[1]) && Once(e, fs[2]);
    } else if e.name == "Play" {
      PlayOk(e);
      assert Conforms(e) <==> u && Once(e, fs[0]) && Once(e, fs[1]);
    } else if e.name == "Seek" {
      SeekOk(e);
      assert Conforms(e) <==> u && Once(e, fs[0]) && Once(e, fs[1]) && Once(e, fs[2]);
    } else if e.name in SimpleTags {
      SimpleOk(e);
      assert Conforms(e) <==> u && Once(e, fs[0]);
    }
  }

  /** Only the fourteen tags decode; the variant decoded is the one the tag names. */
  lemma OnlyKnownTags(e: Element)
    ensures e.name !in Tags ==> DecodeAvTransport(e) == Err(UnknownVariant(e.name))
    ensures DecodeAvTransport(e).Ok? ==> TagOf(DecodeAvTransport(e).value) == e.name
  {
    if DecodeAvTransport(e).Ok? {
      SelectedVariant(e);
    }
  }

  function XmlnsU(a: AvTransport): string
  {
    match a
    case SetAVTransportURI(x) => x.xmlnsU
    case SetNextAVTransportURI(x) => x.xmlnsU
    case Play(x) => x.xmlnsU
    case Seek(x) => x.xmlnsU
    case _ => SimpleOf(a).xmlnsU
  }

  function InstanceId(a: AvTransport): string
  {
    match a
    case SetAVTransportURI(x) => x.instanceId
    case SetNextAVTransportURI(x) => x.instanceId
    case Play(x) => x.instanceId
    case Seek(x) => x.instanceId
    case _ => SimpleOf(a).instanceId
  }

  /** An action's simple argument survives being placed in its variant. */
  lemma SimpleVariantKeeps(tag: string, x: Simple)
    requires tag in SimpleTags
    ensures SimpleOf(SimpleVariant(tag, x)) == x
    ensures XmlnsU(SimpleVariant(tag, x)) == x.xmlnsU && InstanceId(SimpleVariant(tag, x)) == x.instanceId
  {
  }

  /** The texts a decoded action holds, field by field: each is the text of the one
      child of that name with the XML white space at its ends cut, and nothing else
      is done to it; the namespace is the `xmlns:u` attribute as it stands. */
  lemma DecodedValues(e: Element)
    requires DecodeAvTransport(e).Ok?
    ensures var a := DecodeAvTransport(e).value;
      && "xmlns:u" in e.attrs && XmlnsU(a) == e.attrs["xmlns:u"]
      && Once(e, "InstanceID") && InstanceId(a) == FieldText(e, "InstanceID")
      && (a.SetAVTransportURI? ==>
            && Once(e, "CurrentURI") && a.setUri.currentUri == FieldText(e, "CurrentURI")
            && Once(e, "CurrentURIMetaData") && a.setUri.currentUriMetaData == FieldText(e, "CurrentURIMetaData"))
      && (a.SetNextAVTransportURI? ==>
            && Once(e, "NextURI") && a.setNextUri.nextUri == FieldText(e, "NextURI")
            && Once(e, "NextURIMetaData") && a.setNextUri.nextUriMetaData == FieldText(e, "NextURIMetaData"))
      && (a.Play? ==> Once(e, "Speed") && a.play.speed == FieldText(e, "Speed"))
      && (a.Seek? ==>
            && Once(e, "Target") && a.seek.target == FieldText(e, "Target")
            && Once(e, "Unit") && a.seek.unit == FieldText(e, "Unit"))
  {
    SelectedVariant(e);
    TextFieldOk(e, "InstanceID");
    if e.name == "SetAVTransportURI" {
      TextFieldOk(e, "CurrentURI");
      TextFieldOk(e, "CurrentURIMetaData");
    } else if e.name == "SetNextAVTransportURI" {
      TextFieldOk(e, "NextURI");
      TextFieldOk(e, "NextURIMetaData");
    } else if e.name == "Play" {
      TextFieldOk(e, "Speed");
    } else if e.name == "Seek" {
      TextFieldOk(e, "Target");
      TextFieldOk(e, "Unit");
    } else {
      SimpleVariantKeeps(e.name, DecodeSimple(e).value);
    }
  }

  /** A missing `xmlns:u` attribute is a failure for every action. */
  lemma ActionNamespaceRequired(e: Element)
    requires "xmlns:u" !in e.attrs
    ensures DecodeAvTransport(e).Err?
  {
  }

  /** Every action names its instance: without an `InstanceID` child, with two, or
      with one that holds an element, nothing decodes. */
  lemma InstanceIdRequired(e: Element)
    requires !Once(e, "InstanceID")
    ensures DecodeAvTransport(e).Err?
  {
    DecodeSucceedsIff(e);
    if e.name in Tags {
      var fs := Fields(e.name);
      var k := if e.name == "Play" then 1 else if e.name == "Seek" then 2 else 0;
      assert fs[k] == "InstanceID";
    }
  }

  /** Metadata sent as markup rather than escaped text, as an unescaped DIDL-Lite
      document inside `CurrentURIMetaData`, is refused. */
  lemma UnescapedMetaDataFails(e: Element, meta: Element)
    requires e.name == "SetAVTransportURI"
    requires Named(e.children, "CurrentURIMetaData") == [meta] && meta.children != []
    ensures DecodeAvTransport(e).Err?
  {
    DecodeSucceedsIff(e);
    assert !Once(e, Fields(e.name)[2]);
  }

  lemma SetAVTransportURIRoundTrip(x: SetAVTransportURIArgs)
    ensures DecodeSetAVTransportURI(ToElement(SetAVTransportURI(x)))
         == Ok(x.(instanceId := XmlTrim(x.instanceId), currentUri := XmlTrim(x.currentUri),
                  currentUriMetaData := XmlTrim(x.currentUriMetaData)))
  {
    var e := ToElement(SetAVTransportURI(x));
    NamedUnique(e.children, 0);
    NamedUnique(e.children, 1);
    NamedUnique(e.children, 2);
    LeafTextField(e, "InstanceID", x.instanceId);
    LeafTextField(e, "CurrentURI", x.currentUri);
    LeafTextField(e, "CurrentURIMetaData", x.currentUriMetaData);
  }

  lemma SetNextAVTransportURIRoundTrip(x: SetNextAVTransportURIArgs)
    ensures DecodeSetNextAVTransportURI(ToElement(SetNextAVTransportURI(x)))
         == Ok(x.(instanceId := XmlTrim(x.instanceId), nextUri := XmlTrim(x.nextUri),
                  nextUriMetaData := XmlTrim(x.nextUriMetaData)))
  {
    var e := ToElement(SetNextAVTransportURI(x));
    NamedUnique(e.children, 0);
    NamedUnique(e.children, 1);
    NamedUnique(e.children, 2);
    LeafTextField(e, "InstanceID", x.instanceId);
    LeafTextField(e, "NextURI", x.nextUri);
    LeafTextField(e, "NextURIMetaData", x.nextUriMetaData);
  }

  lemma PlayRoundTrip(x: PlayArgs)
    ensures DecodePlay(ToElement(Play(x))) == Ok(x.(speed := XmlTrim(x.speed), instanceId := XmlTrim(x.instanceId)))
  {
    var e := ToElement(Play(x));
    NamedUnique(e.children, 0);
    NamedUnique(e.children, 1);
    LeafTextField(e, "Speed", x.speed);
    LeafTextField(e, "InstanceID", x.instanceId);
  }

  lemma SeekRoundTrip(x: SeekArgs)
    ensures DecodeSeek(ToElement(Seek(x)))
         == Ok(x.(target := XmlTrim(x.target), unit := XmlTrim(x.unit), instanceId := XmlTrim(x.instanceId)))
  {
    var e := ToElement(Seek(x));
    NamedUnique(e.children, 0);
    NamedUnique(e.children, 1);
    NamedUnique(e.children, 2);
    LeafTextField(e, "Target", x.target);
    LeafTextField(e, "Unit", x.unit);
    LeafTextField(e, "InstanceID", x.instanceId);
  }

  lemma SimpleRoundTrip(a: AvTransport)
    requires TagOf(a) in SimpleTags
    ensures DecodeSimple(ToElement(a)) == Ok(TrimSimple(SimpleOf(a)))
  {
    var e := ToElement(a);
    assert Named(e.children, "InstanceID") == e.children;
    LeafTextField(e, "InstanceID", SimpleOf(a).instanceId);
  }

  /** Decoding inverts the derived serialization up to the XML white space at the ends
      of each text: every action comes back trimmed, and an action whose texts carry
      no such white space comes back unchanged. */
  lemma DecodeRoundTrip(a: AvTransport)
    ensures DecodeAvTransport(ToElement(a)) == Ok(Trimmed(a))
    ensures TextsTrimmed(a) ==> DecodeAvTransport(ToElement(a)) == Ok(a)
  {
    SelectedVariant(ToElement(a));
    match a
    case SetAVTransportURI(x) => SetAVTransportURIRoundTrip(x);
    case SetNextAVTransportURI(x) => SetNextAVTransportURIRoundTrip(x);
    case Play(x) => PlayRoundTrip(x);
    case Seek(x) => SeekRoundTrip(x);
    case _ =>
      SimpleRoundTrip(a);
      TrimmedSimple(a);
  }

  /** Whatever decodes is already trimmed, so writing it out again and reading it
      back gives the same action. */
  lemma DecodedIsStable(e: Element)
    requires DecodeAvTransport(e).Ok?
    ensures TextsTrimmed(DecodeAvTransport(e).value)
    ensures DecodeAvTransport(ToElement(DecodeAvTransport(e).value)) == DecodeAvTransport(e)
  {
    var a := DecodeAvTransport(e).value;
    DecodedValues(e);
    if TagOf(a) in SimpleTags {
      assert InstanceId(a) == SimpleOf(a).instanceId;
    }
    DecodeRoundTrip(a);
  }

  /** Decoding inverts serialization for whole envelopes as well, the action's texts
      trimmed as above. */
  lemma EnvelopeRoundTrip(envelope: AvTransportEnvelope)
    ensures DecodeEnvelope(EnvelopeToElement(envelope))
         == Ok(envelope.(sBody := SBody(Trimmed(IntoInner(envelope)))))
    ensures FromStr(EnvelopeToElement(envelope)) == Ok(Trimmed(IntoInner(envelope)))
  {
    var root := EnvelopeToElement(envelope);
    assert Named(root.children, "Body") == root.children;
    DecodeRoundTrip(IntoInner(envelope));
  }

  /** Parsing yields exactly the content of the envelope's one `Body`, which must
      hold one element and no other text. */
  lemma FromStrIsBodyContent(root: Element, body: Element)
    requires "encodingStyle" in root.attrs && "xmlns:s" in root.attrs
    requires Named(root.children, "Body") == [body]
    ensures |body.children| == 1 && Blank(body.text) ==> FromStr(root) == DecodeAvTransport(body.children[0])
    ensures !(|body.children| == 1 && Blank(body.text)) ==> FromStr(root).Err?
  {
  }

  /** Nothing of the envelope but its `Body` reaches the result. */
  lemma EnvelopeIgnored(root: Element, other: Element)
    requires "encodingStyle" in root.attrs && "xmlns:s" in root.attrs
    requires "encodingStyle" in other.attrs && "xmlns:s" in other.attrs
    requires Named(root.children, "Body") == Named(other.children, "Body")
    ensures FromStr(root) == FromStr(other)
  {
  }

  /** The envelope's two attributes are required. */
  lemma EnvelopeAttributesRequired(root: Element)
    requires "encodingStyle" !in root.attrs || "xmlns:s" !in root.attrs
    ensures FromStr(root).Err?
  {
  }

  // ---------------------------------------------------------------------------
  // Worked examples.

  const Namespace: string := "urn:schemas-upnp-org:service:AVTransport:1"

  function EnvelopeAround(content: Element): Element
  {
    Element("Envelope",
      map["xmlns:s" := "http://schemas.xmlsoap.org/soap/envelope/",
          "encodingStyle" := "http://schemas.xmlsoap.org/soap/encoding/"],
      [Element("Body", map[], [content], "")], "")
  }

  /** The documented Play request: speed "1" on instance "0". */
  lemma PlayExample()
    ensures FromStr(EnvelopeAround(Element("Play", map["xmlns:u" := Namespace], [Leaf("Speed", "1"), Leaf("InstanceID", "0")], "")))
         == Ok(Play(PlayArgs(Namespace, "1", "0")))
  {
    assert IsTrimmed("1") && IsTrimmed("0");
    EnvelopeRoundTrip(AvTransportEnvelope("http://schemas.xmlsoap.org/soap/encoding/", "http://schemas.xmlsoap.org/soap/envelope/",
      SBody(Play(PlayArgs(Namespace, "1", "0")))));
  }

  /** A Seek to relative time "12" keeps target and unit as sent. */
  lemma SeekExample()
    ensures DecodeAvTransport(Element("Seek", map["xmlns:u" := Namespace],
              [Leaf("InstanceID", "0"), Leaf("Unit", "REL_TIME"), Leaf("Target", "12")], ""))
         == Ok(Seek(SeekArgs(Namespace, "12", "REL_TIME", "0")))
  {
    var e := Element("Seek", map["xmlns:u" := Namespace],
      [Leaf("InstanceID", "0"), Leaf("Unit", "REL_TIME"), Leaf("Target", "12")], "");
    SeekAnyOrder(e.children, 2, 1, 0);
  }

  /** The same Seek in any order of its three children: the fields are found by name,
      not by position. */
  lemma SeekAnyOrder(cs: seq<Element>, i: nat, j: nat, k: nat)
    requires |cs| == 3 && i < 3 && j < 3 && k < 3 && i != j && j != k && i != k
    requires cs[i] == Leaf("Target", "12") && cs[j] == Leaf("Unit", "REL_TIME") && cs[k] == Leaf("InstanceID", "0")
    ensures DecodeAvTransport(Element("Seek", map["xmlns:u" := Namespace], cs, ""))
         == Ok(Seek(SeekArgs(Namespace, "12", "REL_TIME", "0")))
  {
    var e := Element("Seek", map["xmlns:u" := Namespace], cs, "");
    NamedThree(cs, i, j, k);
    assert IsTrimmed("12") && IsTrimmed("REL_TIME") && IsTrimmed("0");
    TrimmedTextField(e, "Target", "12");
    TrimmedTextField(e, "Unit", "REL_TIME");
    TrimmedTextField(e, "InstanceID", "0");
    assert DecodeSeek(e) == Ok(SeekArgs(Namespace, "12", "REL_TIME", "0"));
  }

  /** Three children with three different names are each found alone. */
  lemma NamedThree(cs: seq<Element>, i: nat, j: nat, k: nat)
    requires |cs| == 3 && i < 3 && j < 3 && k < 3 && i != j && j != k && i != k
    requires cs[i].name != cs[j].name && cs[j].name != cs[k].name && cs[i].name != cs[k].name
    ensures Named(cs, cs[i].name) == [cs[i]] && Named(cs, cs[j].name) == [cs[j]] && Named(cs, cs[k].name) == [cs[k]]
  {
    NamedUnique(cs, i);
    NamedUnique(cs, j);
    NamedUnique(cs, k);
  }

  /** A media URI with a query string, as a controller sends it. */
  const SampleUri: string := "http://example.com/" + "sample.mp4?param1=a&param2=b"

  lemma SampleUriTrimmed()
    ensures IsTrimmed(SampleUri)
  {
    var tail := "sample.mp4?param1=a&param2=b";
    assert SampleUri[|SampleUri| - 1] == tail[|tail| - 1];
  }

  /** An empty `CurrentURIMetaData` element is the empty string, and the URI is kept
      as sent, query string included. */
  lemma SetAVTransportURIExample()
    ensures DecodeAvTransport(ToElement(SetAVTransportURI(SetAVTransportURIArgs(Namespace, "0", SampleUri, ""))))
         == Ok(SetAVTransportURI(SetAVTransportURIArgs(Namespace, "0", SampleUri, "")))
    ensures ToElement(SetAVTransportURI(SetAVTransportURIArgs(Namespace, "0", SampleUri, ""))).children[2]
         == Element("CurrentURIMetaData", map[], [], "")
  {
    SampleUriTrimmed();
    assert IsTrimmed("0") && IsTrimmed("");
    DecodeRoundTrip(SetAVTransportURI(SetAVTransportURIArgs(Namespace, "0", SampleUri, "")));
  }

  /** `InstanceID` is not validated here: any text, even one that is not a number, is
      accepted, with only the XML white space at its ends cut. */
  lemma InstanceIdNotValidated(tag: string, id: string)
    requires tag in SimpleTags
    ensures DecodeAvTransport(Element(tag, map["xmlns:u" := Namespace], [Leaf("InstanceID", id)], ""))
         == Ok(SimpleVariant(tag, Simple(Namespace, XmlTrim(id))))
  {
    var e := Element(tag, map["xmlns:u" := Namespace], [Leaf("InstanceID", id)], "");
    assert Named(e.children, "InstanceID") == e.children;
    LeafTextField(e, "InstanceID", id);
    assert DecodeSimple(e) == Ok(Simple(Namespace, XmlTrim(id)));
    SelectedVariant(e);
  }

  /** An instance sent as "  0" and a line break is the instance "0". */
  lemma PaddedInstanceId()
    ensures DecodeAvTransport(Element("Stop", map["xmlns:u" := Namespace], [Leaf("InstanceID", "  0\n")], ""))
         == Ok(Stop(Simple(Namespace, "0")))
  {
    assert "  0\n" == "  " + "0" + "\n";
    assert Blank("  ") && Blank("\n") && IsTrimmed("0");
    XmlTrimPadded("  ", "0", "\n");
    InstanceIdNotValidated("Stop", "  0\n");
  }
}
