/** The RenderingControl:1 control actions a renderer accepts in a SOAP 1.1 envelope:
    the closed set of six actions, their argument records, the two one-value
    enumerations `Channel` and `PresetName`, and their decoding from the element tree.
    Integer arguments are checked against their Rust width, enumerations against
    their variants; the envelope's own attributes are required but not kept. */
module RenderingControlXml {
  import opened Common
  import opened XmlTree
  import Decimal

  /** The channel of an audio output; only the logical Master channel is known. */
  datatype Channel = Master

  function ChannelDisplay(c: Channel): string
  {
    match c
    case Master => "Master"
  }

  /** A unit variant is read from its name; any other text is an unknown variant. */
  function DecodeChannel(s: string): (r: Result<Channel>)
    ensures r.Ok? <==> s == "Master"
    ensures r.Err? ==> r.error == UnknownVariant(s)
  {
    if s == "Master" then Ok(Master) else Err(UnknownVariant(s))
  }

  /** A device preset; only the manufacturer's factory settings are known. */
  datatype PresetName = FactoryDefaults

  function PresetNameDisplay(p: PresetName): string
  {
    match p
    case FactoryDefaults => "FactoryDefaults"
  }

  function DecodePresetName(s: string): (r: Result<PresetName>)
    ensures r.Ok? <==> s == "FactoryDefaults"
    ensures r.Err? ==> r.error == UnknownVariant(s)
  {
    if s == "FactoryDefaults" then Ok(FactoryDefaults) else Err(UnknownVariant(s))
  }

  /** Decoding what `Display` writes gives back the channel. */
  lemma ChannelRoundTrip(c: Channel)
    ensures DecodeChannel(ChannelDisplay(c)) == Ok(c)
  {
  }

  /** Decoding what `Display` writes gives back the preset. */
  lemma PresetNameRoundTrip(p: PresetName)
    ensures DecodePresetName(PresetNameDisplay(p)) == Ok(p)
  {
  }

  // The argument record of each action, fields in declaration order.
  datatype ListPresetsArgs = ListPresetsArgs(xmlnsU: string, instanceId: U32)
  datatype SelectPresetArgs = SelectPresetArgs(xmlnsU: string, presetName: PresetName, instanceId: U32)
  datatype GetMuteArgs = GetMuteArgs(xmlnsU: string, channel: Channel, instanceId: U32)
  datatype SetMuteArgs = SetMuteArgs(xmlnsU: string, desiredMute: bool, channel: Channel, instanceId: U32)
  datatype GetVolumeArgs = GetVolumeArgs(xmlnsU: string, channel: Channel, instanceId: U32)
  /** `desiredVolume` is documented as 0 to 100 but only its `u16` width is checked. */
  datatype SetVolumeArgs = SetVolumeArgs(xmlnsU: string, desiredVolume: U16, channel: Channel, instanceId: U32)

  /** The actions of the RenderingControl service. */
  datatype RenderingControl =
    | ListPresets(listPresets: ListPresetsArgs)
    | SelectPreset(selectPreset: SelectPresetArgs)
    | GetMute(getMute: GetMuteArgs)
    | SetMute(setMute: SetMuteArgs)
    | GetVolume(getVolume: GetVolumeArgs)
    | SetVolume(setVolume: SetVolumeArgs)

  /** The `Body` container of the envelope. */
  datatype SBody = SBody(content: RenderingControl)

  /** The SOAP envelope: two required attributes and the body. */
  datatype RenderingControlEnvelope = RenderingControlEnvelope(sEncodingStyle: string, xmlnsS: string, sBody: SBody)

  /** The element names that select a variant. */
  const Tags: set<string> := {"ListPresets", "SelectPreset", "GetMute", "SetMute", "GetVolume", "SetVolume"}

  /** The element name a variant is selected by. */
  function TagOf(a: RenderingControl): (tag: string)
    ensures tag in Tags
  {
    match a
    case ListPresets(_) => "ListPresets"
    case SelectPreset(_) => "SelectPreset"
    case GetMute(_) => "GetMute"
    case SetMute(_) => "SetMute"
    case GetVolume(_) => "GetVolume"
    case SetVolume(_) => "SetVolume"
  }

  /** Takes the action out of the envelope, dropping the envelope's attributes. */
  function IntoInner(envelope: RenderingControlEnvelope): RenderingControl
  {
    envelope.sBody.content
  }

  function ChannelField(e: Element, field: string): Result<Channel>
  {
    var t :- TextField(e, field);
    DecodeChannel(t)
  }

  /** A channel field holding "Master" reads the Master channel. */
  lemma MasterChannelField(e: Element, field: string)
    requires Named(e.children, field) == [Leaf(field, "Master")]
    ensures ChannelField(e, field) == Ok(Master)
  {
    assert IsTrimmed("Master");
    TrimmedTextField(e, field, "Master");
  }

  function PresetNameField(e: Element, field: string): Result<PresetName>
  {
    var t :- TextField(e, field);
    DecodePresetName(t)
  }

  function DecodeListPresets(e: Element): Result<ListPresetsArgs>
  {
    var xmlnsU :- Attribute(e, "xmlns:u");
    var instanceId :- U32Field(e, "InstanceID");
    Ok(ListPresetsArgs(xmlnsU, instanceId))
  }

  function DecodeSelectPreset(e: Element): Result<SelectPresetArgs>
  {
    var xmlnsU :- Attribute(e, "xmlns:u");
    var presetName :- PresetNameField(e, "PresetName");
    var instanceId :- U32Field(e, "InstanceID");
    Ok(SelectPresetArgs(xmlnsU, presetName, instanceId))
  }

  function DecodeGetMute(e: Element): Result<GetMuteArgs>
  {
    var xmlnsU :- Attribute(e, "xmlns:u");
    var channel :- ChannelField(e, "Channel");
    var instanceId :- U32Field(e, "InstanceID");
    Ok(GetMuteArgs(xmlnsU, channel, instanceId))
  }

  function DecodeSetMute(e: Element): Result<SetMuteArgs>
  {
    var xmlnsU :- Attribute(e, "xmlns:u");
    var desiredMute :- BoolField(e, "DesiredMute");
    var channel :- ChannelField(e, "Channel");
    var instanceId :- U32Field(e, "InstanceID");
    Ok(SetMuteArgs(xmlnsU, desiredMute, channel, instanceId))
  }

  function DecodeGetVolume(e: Element): Result<GetVolumeArgs>
  {
    var xmlnsU :- Attribute(e, "xmlns:u");
    var channel :- ChannelField(e, "Channel");
    var instanceId :- U32Field(e, "InstanceID");
    Ok(GetVolumeArgs(xmlnsU, channel, instanceId))
  }

  function DecodeSetVolume(e: Element): Result<SetVolumeArgs>
  {
    var xmlnsU :- Attribute(e, "xmlns:u");
    var desiredVolume :- U16Field(e, "DesiredVolume");
    var channel :- ChannelField(e, "Channel");
    var instanceId :- U32Field(e, "InstanceID");
    Ok(SetVolumeArgs(xmlnsU, desiredVolume, channel, instanceId))
  }

  /** The enum's derived `Deserialize`: the element's name selects the variant. */
  function DecodeRenderingControl(e: Element): Result<RenderingControl>
  {
    if e.name == "ListPresets" then var a :- DecodeListPresets(e); Ok(ListPresets(a))
    else if e.name == "SelectPreset" then var a :- DecodeSelectPreset(e); Ok(SelectPreset(a))
    else if e.name == "GetMute" then var a :- DecodeGetMute(e); Ok(GetMute(a))
    else if e.name == "SetMute" then var a :- DecodeSetMute(e); Ok(SetMute(a))
    else if e.name == "GetVolume" then var a :- DecodeGetVolume(e); Ok(GetVolume(a))
    else if e.name == "SetVolume" then var a :- DecodeSetVolume(e); Ok(SetVolume(a))
    else Err(UnknownVariant(e.name))
  }

  /** The envelope's derived `Deserialize`. The root element's own name is not checked. */
  function DecodeEnvelope(root: Element): Result<RenderingControlEnvelope>
  {
    var encodingStyle :- Attribute(root, "encodingStyle");
    var xmlnsS :- Attribute(root, "xmlns:s");
    var body :- Child(root, "Body");
    var content :- Content(body);
    var action :- DecodeRenderingControl(content);
    Ok(RenderingControlEnvelope(encodingStyle, xmlnsS, SBody(action)))
  }

  /** `RenderingControl::from_str`: decode the envelope, keep only its content. */
  function FromStr(root: Element): Result<RenderingControl>
  {
    var envelope :- DecodeEnvelope(root);
    Ok(IntoInner(envelope))
  }

  // ---------------------------------------------------------------------------
  // The element tree the derived `Serialize` describes: the inverse of decoding.

  function ToElement(a: RenderingControl): Element
  {
    match a
    case ListPresets(x) =>
      Element("ListPresets", map["xmlns:u" := x.xmlnsU],
        [Leaf("InstanceID", Decimal.NatToDecimal(x.instanceId))], "")
    case SelectPreset(x) =>
      Element("SelectPreset", map["xmlns:u" := x.xmlnsU],
        [Leaf("PresetName", PresetNameDisplay(x.presetName)), Leaf("InstanceID", Decimal.NatToDecimal(x.instanceId))], "")
    case GetMute(x) =>
      Element("GetMute", map["xmlns:u" := x.xmlnsU],
        [Leaf("Channel", ChannelDisplay(x.channel)), Leaf("InstanceID", Decimal.NatToDecimal(x.instanceId))], "")
    case SetMute(x) =>
      Element("SetMute", map["xmlns:u" := x.xmlnsU],
        [Leaf("DesiredMute", if x.desiredMute then "true" else "false"), Leaf("Channel", ChannelDisplay(x.channel)),
         Leaf("InstanceID", Decimal.NatToDecimal(x.instanceId))], "")
    case GetVolume(x) =>
      Element("GetVolume", map["xmlns:u" := x.xmlnsU],
        [Leaf("Channel", ChannelDisplay(x.channel)), Leaf("InstanceID", Decimal.NatToDecimal(x.instanceId))], "")
    case SetVolume(x) =>
      Element("SetVolume", map["xmlns:u" := x.xmlnsU],
        [Leaf("DesiredVolume", Decimal.NatToDecimal(x.desiredVolume)), Leaf("Channel", ChannelDisplay(x.channel)),
         Leaf("InstanceID", Decimal.NatToDecimal(x.instanceId))], "")
  }

  /** An envelope around one action, as the SOAP examples write it. */
  function EnvelopeToElement(envelope: RenderingControlEnvelope): Element
  {
    Element("Envelope",
      map["xmlns:s" := envelope.xmlnsS, "encodingStyle" := envelope.sEncodingStyle],
      [Element("Body", map[], [ToElement(IntoInner(envelope))], "")], "")
  }

  // ---------------------------------------------------------------------------
  // The schema as a table: an independent statement of what decodes.

  /** What a child-element field accepts. */
  datatype FieldKind = Unsigned(bound: nat) | Flag | ChannelName | Preset

  /** Each action's child-element fields, in declaration order. */
  function Fields(tag: string): seq<(string, FieldKind)>
  {
    if tag == "ListPresets" then [("InstanceID", Unsigned(U32_BOUND))]
    else if tag == "SelectPreset" then [("PresetName", Preset), ("InstanceID", Unsigned(U32_BOUND))]
    else if tag == "GetMute" || tag == "GetVolume" then [("Channel", ChannelName), ("InstanceID", Unsigned(U32_BOUND))]
    else if tag == "SetMute" then [("DesiredMute", Flag), ("Channel", ChannelName), ("InstanceID", Unsigned(U32_BOUND))]
    else if tag == "SetVolume" then
      [("DesiredVolume", Unsigned(U16_BOUND)), ("Channel", ChannelName), ("InstanceID", Unsigned(U32_BOUND))]
    else []
  }

  predicate Accepts(kind: FieldKind, text: string)
  {
    match kind
    case Unsigned(bound) => Decimal.ParseUnsigned(text, bound).Some?
    case Flag => text in {"true", "1", "false", "0"}
    case ChannelName => text == "Master"
    case Preset => text == "FactoryDefaults"
  }

  /** The field occurs exactly once, holds text only, and its text, once the XML
      white space at its ends is cut, is a legal value. */
  predicate FieldConforms(e: Element, field: (string, FieldKind))
  {
    Once(e, field.0) && Accepts(field.1, FieldText(e, field.0))
  }

  predicate Conforms(e: Element)
  {
    && e.name in Tags
    && "xmlns:u" in e.attrs
    && forall i | 0 <= i < |Fields(e.name)| :: FieldConforms(e, Fields(e.name)[i])
  }

  const U32Id: (string, FieldKind) := ("InstanceID", Unsigned(U32_BOUND))
  const ChannelArg: (string, FieldKind) := ("Channel", ChannelName)

  lemma ListPresetsOk(e: Element)
    ensures DecodeListPresets(e).Ok? <==> "xmlns:u" in e.attrs && FieldConforms(e, U32Id)
  {
  }

  lemma SelectPresetOk(e: Element)
    ensures DecodeSelectPreset(e).Ok? <==>
      "xmlns:u" in e.attrs && FieldConforms(e, ("PresetName", Preset)) && FieldConforms(e, U32Id)
  {
  }

  lemma GetMuteOk(e: Element)
    ensures DecodeGetMute(e).Ok? <==> "xmlns:u" in e.attrs && FieldConforms(e, ChannelArg) && FieldConforms(e, U32Id)
  {
  }

  lemma SetMuteOk(e: Element)
    ensures DecodeSetMute(e).Ok? <==>
      "xmlns:u" in e.attrs && FieldConforms(e, ("DesiredMute", Flag)) && FieldConforms(e, ChannelArg) && FieldConforms(e, U32Id)
  {
  }

  lemma GetVolumeOk(e: Element)
    ensures DecodeGetVolume(e).Ok? <==> "xmlns:u" in e.attrs && FieldConforms(e, ChannelArg) && FieldConforms(e, U32Id)
  {
  }

  lemma SetVolumeOk(e: Element)
    ensures DecodeSetVolume(e).Ok? <==>
      "xmlns:u" in e.attrs && FieldConforms(e, ("DesiredVolume", Unsigned(U16_BOUND))) && FieldConforms(e, ChannelArg)
      && FieldConforms(e, U32Id)
  {
  }

  /** An action decodes exactly when its element conforms to the schema table: a known
      tag, the `xmlns:u` attribute, and every field once with a legal value. */
  lemma DecodeSucceedsIff(e: Element)
    ensures DecodeRenderingControl(e).Ok? <==> Conforms(e)
  {
    var fs := Fields(e.name);
    var u := "xmlns:u" in e.attrs;
    if e.name == "ListPresets" {
      ListPresetsOk(e);
      assert Conforms(e) <==> u && FieldConforms(e, fs[0]);
    } else if e.name == "SelectPreset" {
      SelectPresetOk(e);
      assert Conforms(e) <==> u && FieldConforms(e, fs[0]) && FieldConforms(e, fs[1]);
    } else if e.name == "GetMute" {
      GetMuteOk(e);
      assert Conforms(e) <==> u && FieldConforms(e, fs[0]) && FieldConforms(e, fs[1]);
    } else if e.name == "GetVolume" {
      GetVolumeOk(e);
      assert Conforms(e) <==> u && FieldConforms(e, fs[0]) && FieldConforms(e, fs[1]);
    } else if e.name == "SetMute" {
      SetMuteOk(e);
      assert Conforms(e) <==> u && FieldConforms(e, fs[0]) && FieldConforms(e, fs[1]) && FieldConforms(e, fs[2]);
    } else if e.name == "SetVolume" {
      SetVolumeOk(e);
      assert Conforms(e) <==> u && FieldConforms(e, fs[0]) && FieldConforms(e, fs[1]) && FieldConforms(e, fs[2]);
    }
  }

  /** Only the six tags decode; the variant decoded is the one the tag names. */
  lemma OnlyKnownTags(e: Element)
    ensures e.name !in Tags ==> DecodeRenderingControl(e) == Err(UnknownVariant(e.name))
    ensures DecodeRenderingControl(e).Ok? ==> TagOf(DecodeRenderingControl(e).value) == e.name
  {
    var r := DecodeRenderingControl(e);
    if r.Ok? {
      if e.name == "ListPresets" {
        assert r.value.ListPresets?;
      } else if e.name == "SelectPreset" {
        assert r.value.SelectPreset?;
      } else if e.name == "GetMute" {
        assert r.value.GetMute?;
      } else if e.name == "SetMute" {
        assert r.value.SetMute?;
      } else if e.name == "GetVolume" {
        assert r.value.GetVolume?;
      } else {
        assert r.value.SetVolume?;
      }
    }
  }

  function XmlnsU(a: RenderingControl): string
  {
    match a
    case ListPresets(x) => x.xmlnsU
    case SelectPreset(x) => x.xmlnsU
    case GetMute(x) => x.xmlnsU
    case SetMute(x) => x.xmlnsU
    case GetVolume(x) => x.xmlnsU
    case SetVolume(x) => x.xmlnsU
  }

  function InstanceId(a: RenderingControl): U32
  {
    match a
    case ListPresets(x) => x.instanceId
    case SelectPreset(x) => x.instanceId
    case GetMute(x) => x.instanceId
    case SetMute(x) => x.instanceId
    case GetVolume(x) => x.instanceId
    case SetVolume(x) => x.instanceId
  }

  /** What a decoded action holds: the `xmlns:u` attribute verbatim, the numbers the
      trimmed field texts denote, the mute flag as spelled. */
  lemma DecodedValues(e: Element)
    requires DecodeRenderingControl(e).Ok?
    ensures var a := DecodeRenderingControl(e).value;
      && "xmlns:u" in e.attrs && XmlnsU(a) == e.attrs["xmlns:u"]
      && Once(e, "InstanceID")
      && Decimal.ParseUnsigned(FieldText(e, "InstanceID"), U32_BOUND) == Some(InstanceId(a) as nat)
      && (a.SetVolume? ==>
            && Once(e, "DesiredVolume")
            && Decimal.ParseUnsigned(FieldText(e, "DesiredVolume"), U16_BOUND) == Some(a.setVolume.desiredVolume as nat))
      && (a.SetMute? ==>
            && Once(e, "DesiredMute")
            && (a.setMute.desiredMute <==> FieldText(e, "DesiredMute") in {"true", "1"}))
  {
    if e.name == "SetVolume" {
      var x := DecodeSetVolume(e).value;
    } else if e.name == "SetMute" {
      var x := DecodeSetMute(e).value;
    }
  }

  /** A `Channel` other than "Master" (white space around it aside) is a failure,
      never a default. */
  lemma ChannelOtherThanMasterFails(e: Element, c: Element)
    requires e.name in {"GetMute", "SetMute", "GetVolume", "SetVolume"}
    requires Named(e.children, "Channel") == [c] && (XmlTrim(c.text) != "Master" || c.children != [])
    ensures DecodeRenderingControl(e).Err?
  {
    DecodeSucceedsIff(e);
    var fs := Fields(e.name);
    var k := if e.name == "GetMute" || e.name == "GetVolume" then 0 else 1;
    assert fs[k] == ("Channel", ChannelName);
    assert !FieldConforms(e, fs[k]);
  }

  /** A `PresetName` other than "FactoryDefaults" (white space around it aside) is a
      failure. */
  lemma PresetOtherThanFactoryDefaultsFails(e: Element, p: Element)
    requires e.name == "SelectPreset"
    requires Named(e.children, "PresetName") == [p] && (XmlTrim(p.text) != "FactoryDefaults" || p.children != [])
    ensures DecodeRenderingControl(e).Err?
  {
    DecodeSucceedsIff(e);
    assert !FieldConforms(e, Fields(e.name)[0]);
  }

  /** A missing `xmlns:u` attribute is a failure for every action. */
  lemma ActionNamespaceRequired(e: Element)
    requires "xmlns:u" !in e.attrs
    ensures DecodeRenderingControl(e).Err?
  {
  }

  /** The variant is the one the tag selects, with the arguments its decoder gives. */
  lemma SelectedVariant(e: Element)
    ensures e.name == "ListPresets" && DecodeListPresets(e).Ok? ==>
      DecodeRenderingControl(e) == Ok(ListPresets(DecodeListPresets(e).value))
    ensures e.name == "SelectPreset" && DecodeSelectPreset(e).Ok? ==>
      DecodeRenderingControl(e) == Ok(SelectPreset(DecodeSelectPreset(e).value))
    ensures e.name == "GetMute" && DecodeGetMute(e).Ok? ==> DecodeRenderingControl(e) == Ok(GetMute(DecodeGetMute(e).value))
    ensures e.name == "SetMute" && DecodeSetMute(e).Ok? ==> DecodeRenderingControl(e) == Ok(SetMute(DecodeSetMute(e).value))
    ensures e.name == "GetVolume" && DecodeGetVolume(e).Ok? ==>
      DecodeRenderingControl(e) == Ok(GetVolume(DecodeGetVolume(e).value))
    ensures e.name == "SetVolume" && DecodeSetVolume(e).Ok? ==>
      DecodeRenderingControl(e) == Ok(SetVolume(DecodeSetVolume(e).value))
  {
  }

  lemma ListPresetsRoundTrip(x: ListPresetsArgs)
    ensures DecodeListPresets(ToElement(ListPresets(x))) == Ok(x)
  {
    var e := ToElement(ListPresets(x));
    assert Named(e.children, "InstanceID") == e.children;
    DisplayedU32Field(e, "InstanceID", x.instanceId);
  }

  lemma SelectPresetRoundTrip(x: SelectPresetArgs)
    ensures DecodeSelectPreset(ToElement(SelectPreset(x))) == Ok(x)
  {
    var e := ToElement(SelectPreset(x));
    assert PresetNameField(e, "PresetName") == Ok(x.presetName) by {
      NamedUnique(e.children, 0);
      assert IsTrimmed("FactoryDefaults");
      TrimmedTextField(e, "PresetName", "FactoryDefaults");
      assert x.presetName == FactoryDefaults;
    }
    assert U32Field(e, "InstanceID") == Ok(x.instanceId) by {
      NamedUnique(e.children, 1);
      DisplayedU32Field(e, "InstanceID", x.instanceId);
    }
  }

  lemma GetMuteRoundTrip(x: GetMuteArgs)
    ensures DecodeGetMute(ToElement(GetMute(x))) == Ok(x)
  {
    var e := ToElement(GetMute(x));
    assert ChannelField(e, "Channel") == Ok(x.channel) by {
      NamedUnique(e.children, 0);
      MasterChannelField(e, "Channel");
      assert x.channel == Master;
    }
    assert U32Field(e, "InstanceID") == Ok(x.instanceId) by {
      NamedUnique(e.children, 1);
      DisplayedU32Field(e, "InstanceID", x.instanceId);
    }
  }

  lemma SetMuteRoundTrip(x: SetMuteArgs)
    ensures DecodeSetMute(ToElement(SetMute(x))) == Ok(x)
  {
    var e := ToElement(SetMute(x));
    assert Attribute(e, "xmlns:u") == Ok(x.xmlnsU);
    assert BoolField(e, "DesiredMute") == Ok(x.desiredMute) by {
      NamedUnique(e.children, 0);
      SpelledBoolField(e, "DesiredMute", x.desiredMute);
    }
    assert ChannelField(e, "Channel") == Ok(x.channel) by {
      NamedUnique(e.children, 1);
      MasterChannelField(e, "Channel");
      assert x.channel == Master;
    }
    assert U32Field(e, "InstanceID") == Ok(x.instanceId) by {
      NamedUnique(e.children, 2);
      DisplayedU32Field(e, "InstanceID", x.instanceId);
    }
    SetMuteOfFields(e, x);
  }

  /** SetMute's arguments are its attribute and three fields, each decoded alone. */
  lemma SetMuteOfFields(e: Element, x: SetMuteArgs)
    requires Attribute(e, "xmlns:u") == Ok(x.xmlnsU) && BoolField(e, "DesiredMute") == Ok(x.desiredMute)
    requires ChannelField(e, "Channel") == Ok(x.channel) && U32Field(e, "InstanceID") == Ok(x.instanceId)
    ensures DecodeSetMute(e) == Ok(x)
  {
  }

  lemma GetVolumeRoundTrip(x: GetVolumeArgs)
    ensures DecodeGetVolume(ToElement(GetVolume(x))) == Ok(x)
  {
    var e := ToElement(GetVolume(x));
    assert ChannelField(e, "Channel") == Ok(x.channel) by {
      NamedUnique(e.children, 0);
      MasterChannelField(e, "Channel");
      assert x.channel == Master;
    }
    assert U32Field(e, "InstanceID") == Ok(x.instanceId) by {
      NamedUnique(e.children, 1);
      DisplayedU32Field(e, "InstanceID", x.instanceId);
    }
  }

  lemma SetVolumeRoundTrip(x: SetVolumeArgs)
    ensures DecodeSetVolume(ToElement(SetVolume(x))) == Ok(x)
  {
    var e := SetVolumeElement(x.xmlnsU, Decimal.NatToDecimal(x.desiredVolume), "Master", Decimal.NatToDecimal(x.instanceId));
    assert ToElement(SetVolume(x)) == e by {
      assert x.channel == Master;
    }
    assert Attribute(e, "xmlns:u") == Ok(x.xmlnsU);
    assert U16Field(e, "DesiredVolume") == Ok(x.desiredVolume) by {
      NamedUnique(e.children, 0);
      DisplayedU16Field(e, "DesiredVolume", x.desiredVolume);
    }
    assert ChannelField(e, "Channel") == Ok(x.channel) by {
      NamedUnique(e.children, 1);
      MasterChannelField(e, "Channel");
      assert x.channel == Master;
    }
    assert U32Field(e, "InstanceID") == Ok(x.instanceId) by {
      NamedUnique(e.children, 2);
      DisplayedU32Field(e, "InstanceID", x.instanceId);
    }
    SetVolumeOfFields(e, x);
  }

  /** SetVolume's arguments are its attribute and three fields, each decoded alone. */
  lemma SetVolumeOfFields(e: Element, x: SetVolumeArgs)
    requires Attribute(e, "xmlns:u") == Ok(x.xmlnsU) && U16Field(e, "DesiredVolume") == Ok(x.desiredVolume)
    requires ChannelField(e, "Channel") == Ok(x.channel) && U32Field(e, "InstanceID") == Ok(x.instanceId)
    ensures DecodeSetVolume(e) == Ok(x)
  {
  }

  /** Decoding inverts the derived serialization, for every action. */
  lemma DecodeRoundTrip(a: RenderingControl)
    ensures DecodeRenderingControl(ToElement(a)) == Ok(a)
  {
    SelectedVariant(ToElement(a));
    match a
    case ListPresets(x) => ListPresetsRoundTrip(x);
    case SelectPreset(x) => SelectPresetRoundTrip(x);
    case GetMute(x) => GetMuteRoundTrip(x);
    case SetMute(x) => SetMuteRoundTrip(x);
    case GetVolume(x) => GetVolumeRoundTrip(x);
    case SetVolume(x) => SetVolumeRoundTrip(x);
  }

  /** Decoding inverts serialization for whole envelopes as well. */
  lemma EnvelopeRoundTrip(envelope: RenderingControlEnvelope)
    ensures DecodeEnvelope(EnvelopeToElement(envelope)) == Ok(envelope)
    ensures FromStr(EnvelopeToElement(envelope)) == Ok(IntoInner(envelope))
  {
    var root := EnvelopeToElement(envelope);
    assert Named(root.children, "Body") == root.children;
    DecodeRoundTrip(IntoInner(envelope));
  }

  /** Parsing yields exactly the content of the envelope's one `Body`, which must
      hold one element and no other text. */
  lemma FromStrIsBodyContent(root: Element, body: Element)
    requires "encodingStyle" in root.attrs && "xmlns:s" in root.attrs
    requires Named(root.children, "Body") == [body]
    ensures |body.children| == 1 && Blank(body.text) ==> FromStr(root) == DecodeRenderingControl(body.children[0])
    ensures !(|body.children| == 1 && Blank(body.text)) ==> FromStr(root).Err?
  {
  }

  /** Nothing of the envelope but its `Body` reaches the result: the root's name and
      text, the values of its attributes and its other children make no difference. */
  lemma EnvelopeIgnored(root: Element, other: Element)
    requires "encodingStyle" in root.attrs && "xmlns:s" in root.attrs
    requires "encodingStyle" in other.attrs && "xmlns:s" in other.attrs
    requires Named(root.children, "Body") == Named(other.children, "Body")
    ensures FromStr(root) == FromStr(other)
  {
  }

  /** The envelope's two attributes are required. */
  lemma EnvelopeAttributesRequired(root: Element)
    requires "encodingStyle" !in root.attrs || "xmlns:s" !in root.attrs
    ensures FromStr(root).Err?
  {
  }

  /** White space around a field's text is no part of its value: a GetVolume whose
      Channel and InstanceID are padded with it decodes as if they were not. */
  lemma PaddedFieldsDecode(xmlnsU: string, p: string, q: string, n: U32)
    requires Blank(p) && Blank(q)
    ensures DecodeRenderingControl(Element("GetVolume", map["xmlns:u" := xmlnsU],
              [Leaf("Channel", p + "Master" + q), Leaf("InstanceID", p + Decimal.NatToDecimal(n) + q)], ""))
         == Ok(GetVolume(GetVolumeArgs(xmlnsU, Master, n)))
  {
    var e := Element("GetVolume", map["xmlns:u" := xmlnsU],
      [Leaf("Channel", p + "Master" + q), Leaf("InstanceID", p + Decimal.NatToDecimal(n) + q)], "");
    assert ChannelField(e, "Channel") == Ok(Master) by {
      NamedUnique(e.children, 0);
      LeafTextField(e, "Channel", p + "Master" + q);
      XmlTrimPadded(p, "Master", q);
    }
    assert U32Field(e, "InstanceID") == Ok(n) by {
      NamedUnique(e.children, 1);
      LeafTextField(e, "InstanceID", p + Decimal.NatToDecimal(n) + q);
      DisplayedTrimmed(n);
      XmlTrimPadded(p, Decimal.NatToDecimal(n), q);
      Decimal.ParseDisplayed(n, U32_BOUND);
    }
  }

  // ---------------------------------------------------------------------------
  // Integer widths and worked examples.

  function ListPresetsElement(xmlnsU: string, instanceId: string): Element
  {
    Element("ListPresets", map["xmlns:u" := xmlnsU], [Leaf("InstanceID", instanceId)], "")
  }

  function SetVolumeElement(xmlnsU: string, volume: string, channel: string, instanceId: string): Element
  {
    Element("SetVolume", map["xmlns:u" := xmlnsU],
      [Leaf("DesiredVolume", volume), Leaf("Channel", channel), Leaf("InstanceID", instanceId)], "")
  }

  /** `InstanceID` is accepted exactly over the `u32` range. */
  lemma InstanceIdIsU32(xmlnsU: string, n: nat)
    ensures DecodeRenderingControl(ListPresetsElement(xmlnsU, Decimal.NatToDecimal(n)))
         == if n < U32_BOUND then Ok(ListPresets(ListPresetsArgs(xmlnsU, n)))
            else Err(InvalidInteger(Decimal.NatToDecimal(n)))
  {
    Decimal.ParseDisplayed(n, U32_BOUND);
    DisplayedTrimmed(n);
    var e := ListPresetsElement(xmlnsU, Decimal.NatToDecimal(n));
    assert Named(e.children, "InstanceID") == e.children;
  }

  /** `DesiredVolume` is accepted over the whole `u16` range, with no check against 100. */
  lemma DesiredVolumeIsU16(xmlnsU: string, v: nat, instanceId: U32)
    ensures DecodeRenderingControl(SetVolumeElement(xmlnsU, Decimal.NatToDecimal(v), "Master", Decimal.NatToDecimal(instanceId)))
         == if v < U16_BOUND then Ok(SetVolume(SetVolumeArgs(xmlnsU, v, Master, instanceId)))
            else Err(InvalidInteger(Decimal.NatToDecimal(v)))
  {
    if v < U16_BOUND {
      VolumeInRange(xmlnsU, v, instanceId);
    } else {
      VolumeOutOfRange(xmlnsU, v, instanceId);
    }
  }

  lemma VolumeInRange(xmlnsU: string, v: U16, instanceId: U32)
    ensures DecodeRenderingControl(SetVolumeElement(xmlnsU, Decimal.NatToDecimal(v), "Master", Decimal.NatToDecimal(instanceId)))
         == Ok(SetVolume(SetVolumeArgs(xmlnsU, v, Master, instanceId)))
  {
    var a := SetVolume(SetVolumeArgs(xmlnsU, v, Master, instanceId));
    assert SetVolumeElement(xmlnsU, Decimal.NatToDecimal(v), "Master", Decimal.NatToDecimal(instanceId)) == ToElement(a);
    DecodeRoundTrip(a);
  }

  lemma VolumeOutOfRange(xmlnsU: string, v: nat, instanceId: U32)
    requires v >= U16_BOUND
    ensures DecodeRenderingControl(SetVolumeElement(xmlnsU, Decimal.NatToDecimal(v), "Master", Decimal.NatToDecimal(instanceId)))
         == Err(InvalidInteger(Decimal.NatToDecimal(v)))
  {
    var e := SetVolumeElement(xmlnsU, Decimal.NatToDecimal(v), "Master", Decimal.NatToDecimal(instanceId));
    assert U16Field(e, "DesiredVolume") == Err(InvalidInteger(Decimal.NatToDecimal(v))) by {
      NamedUnique(e.children, 0);
      Decimal.ParseDisplayed(v, U16_BOUND);
      DisplayedTrimmed(v);
      assert Child(e, "DesiredVolume") == Ok(e.children[0]);
    }
    assert Attribute(e, "xmlns:u") == Ok(xmlnsU);
    assert DecodeSetVolume(e) == Err(InvalidInteger(Decimal.NatToDecimal(v)));
  }

  /** So a volume of 101 decodes, above the documented maximum of 100. */
  lemma VolumeAboveHundredDecodes()
    ensures DecodeRenderingControl(SetVolumeElement("urn:schemas-upnp-org:service:RenderingControl:1", "101", "Master", "0"))
         == Ok(SetVolume(SetVolumeArgs("urn:schemas-upnp-org:service:RenderingControl:1", 101, Master, 0)))
  {
    assert Decimal.NatToDecimal(101) == "101";
    assert Decimal.NatToDecimal(0) == "0";
    VolumeInRange("urn:schemas-upnp-org:service:RenderingControl:1", 101, 0);
  }

  /** A whole SetVolume request, envelope included, with any namespaces and numbers. */
  lemma SetVolumeRequest(encodingStyle: string, xmlnsS: string, xmlnsU: string, v: U16, instanceId: U32)
    ensures FromStr(Element("Envelope", map["xmlns:s" := xmlnsS, "encodingStyle" := encodingStyle],
              [Element("Body", map[], [SetVolumeElement(xmlnsU, Decimal.NatToDecimal(v), "Master", Decimal.NatToDecimal(instanceId))], "")], ""))
         == Ok(SetVolume(SetVolumeArgs(xmlnsU, v, Master, instanceId)))
  {
    var a := SetVolume(SetVolumeArgs(xmlnsU, v, Master, instanceId));
    var envelope := RenderingControlEnvelope(encodingStyle, xmlnsS, SBody(a));
    assert ToElement(a) == SetVolumeElement(xmlnsU, Decimal.NatToDecimal(v), "Master", Decimal.NatToDecimal(instanceId));
    EnvelopeRoundTrip(envelope);
  }

  /** The documented SetVolume request: DesiredVolume 50, Channel Master, InstanceID 0. */
  lemma SetVolumeExample()
    ensures FromStr(Element("Envelope",
              map["xmlns:s" := "http://schemas.xmlsoap.org/soap/envelope/",
                  "encodingStyle" := "http://schemas.xmlsoap.org/soap/encoding/"],
              [Element("Body", map[], [SetVolumeElement("urn:schemas-upnp-org:service:RenderingControl:1", "50", "Master", "0")], "")], ""))
         == Ok(SetVolume(SetVolumeArgs("urn:schemas-upnp-org:service:RenderingControl:1", 50, Master, 0)))
  {
    assert Decimal.NatToDecimal(50) == "50";
    assert Decimal.NatToDecimal(0) == "0";
    SetVolumeRequest("http://schemas.xmlsoap.org/soap/encoding/", "http://schemas.xmlsoap.org/soap/envelope/",
      "urn:schemas-upnp-org:service:RenderingControl:1", 50, 0);
  }

  /** A SetMute request whose DesiredMute is spelled "1" or "true" decodes to a set mute. */
  lemma SetMuteExample(mute: string)
    requires mute in {"1", "true"}
    ensures DecodeRenderingControl(Element("SetMute", map["xmlns:u" := "urn:schemas-upnp-org:service:RenderingControl:1"],
              [Leaf("Channel", "Master"), Leaf("DesiredMute", mute), Leaf("InstanceID", "0")], ""))
         == Ok(SetMute(SetMuteArgs("urn:schemas-upnp-org:service:RenderingControl:1", true, Master, 0)))
  {
    var e := Element("SetMute", map["xmlns:u" := "urn:schemas-upnp-org:service:RenderingControl:1"],
      [Leaf("Channel", "Master"), Leaf("DesiredMute", mute), Leaf("InstanceID", "0")], "");
    var cs := e.children;
    assert Decimal.NatToDecimal(0) == "0";
    Decimal.ParseDisplayed(0, U32_BOUND);
    DisplayedTrimmed(0);
    assert IsTrimmed(mute) && IsTrimmed("Master");
    NamedCons(cs[1], [cs[2]], "DesiredMute");
    NamedCons(cs[1], [cs[2]], "Channel");
    NamedCons(cs[1], [cs[2]], "InstanceID");
    NamedCons(cs[0], [cs[1], cs[2]], "DesiredMute");
    NamedCons(cs[0], [cs[1], cs[2]], "Channel");
    NamedCons(cs[0], [cs[1], cs[2]], "InstanceID");
    assert cs == [cs[0]] + [cs[1], cs[2]];
  }
}
