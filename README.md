# A verified model of the dlna-dmr renderer core

dlna-dmr is a small UPnP/DLNA digital media renderer. This project models its core
in Dafny and proves properties of that model:

- **Control messages** (`RenderingControlXml`, `AvTransportXml`). These are the SOAP
  bodies of the RenderingControl and AVTransport services. Each one decodes to an
  action enum through serde's derived `Deserialize`, and `FromStr` keeps only the
  envelope's `Body` content. Decoding works on an element tree (`XmlTree`):
  - every field must occur exactly once;
  - a field of a simple type (a string, a number, a flag, a one-name enum) must hold
    text only, since an element nested in it is an error;
  - that text is read with the XML white space (space, tab, CR, LF) at both of its
    ends cut, as quick_xml's deserializer does (`XmlTrim`);
  - the `Body` must hold exactly one element and no text other than white space;
  - an attribute field must be present;
  - unknown children and attributes are ignored;
  - integers are read by Rust's `FromStr` for `u16`/`u32` (`Decimal`).

  Each decoder is tied to two partners. The first is the derived serialization
  (`ToElement`), which decoding inverts. The second is a schema table (`Fields`,
  `Conforms`): decoding succeeds exactly when the element conforms to it.
- **Discovery** (`Ssdp`, `CrlfLines`). `SSDPServer` is a class whose `outbox` holds
  the datagrams handed to `send_to`.
  - The NOTIFY announcements: five per `notify_all`, and the first failed send stops
    the rest.
  - The M-SEARCH reply.
  - The prefix classification done by `answer`.
  - One turn of the receive loop.

  Every message text is read back by an independent CRLF line parser, which gives
  back the header lines it was built from.
- **HTTP routing** (`Http`). `handle_request` behaves as a pure function of
  method and path. It is proved equal to an endpoint-first description (`Routed`),
  and its four outcomes are proved: 405, 718, 200 with a placeholder, and 404.
- **Log extraction** (`Extractor`). The two patterns `<CurrentURI>([^<]+)</CurrentURI>`
  and `<NextURI>([^<]+)</NextURI>` are written as a leftmost-match search. It is proved
  against a declarative `Match` predicate: Find returns a match, every earlier start
  has none, and None means there is no match at all. `str::trim` is modelled over
  the Unicode White_Space set. `Extract` builds its result with two conditional
  pushes and is proved equal to `Extracted`.

The SSDP announcement's `LOCATION` is `http://<address>/description.xml`, a path the
HTTP router does not serve (`Http.ServiceResponses` shows that GET on it gives 404).
The model keeps both as written.

## Model

| member | source | states |
|---|---|---|
| `Decimal.NatToDecimal` | src/ssdp.rs:176 | `Display` of an unsigned integer: a non-empty run of digits whose value is the number, with no leading zero |
| `Decimal.DisplayOfCanonical` | src/ssdp.rs:174-177 | digit text without a leading zero is exactly what `Display` writes for its value, so every number has one displayed form |
| `Decimal.ParseUnsigned` | src/xml/rendering_control.rs:122-123 | `FromStr` for an unsigned type only yields values below its bound |
| `Decimal.ParseDisplayed` | src/xml/rendering_control.rs:122-123 | reading back what `Display` wrote gives the number exactly when it is in range, and fails otherwise |
| `Decimal.LeadingZeroAccepted` | src/xml/rendering_control.rs:122-123 | a leading zero is accepted and changes nothing |
| `Decimal.SignedText` | src/xml/rendering_control.rs:122-123 | one leading '+' is accepted; '-' is always rejected, even before zero |
| `XmlTree.Child` | src/xml/rendering_control.rs:121-123 | a child field decodes iff exactly one child has its name; none is a missing field, more than one a duplicate |
| `XmlTree.Content` | src/xml/rendering_control.rs:61-62 | the `$value` content exists iff the body has exactly one child element and no text but white space, and it is that child |
| `XmlTree.XmlTrim` | src/xml/av_transport.rs:107 | the text a field is given starts and ends with no XML white space, is no longer than the raw text, and is the raw text when that has none at its ends |
| `XmlTree.XmlTrimSlice` | src/xml/av_transport.rs:107 | trimming keeps a contiguous slice of the raw text and cuts only XML white space before and after it |
| `XmlTree.XmlTrimEmptyIffBlank` | src/xml/av_transport.rs:107 | text trims to nothing iff it is all XML white space |
| `XmlTree.XmlTrimPadded` | src/xml/av_transport.rs:107 | any XML white space around a trimmed text is cut back to that text |
| `XmlTree.XmlTrimIdempotent` | src/xml/av_transport.rs:107 | trimming twice is trimming once |
| `XmlTree.TextField` | src/xml/av_transport.rs:117-120 | a `String` field decodes iff its child occurs exactly once and holds no element; its value is that child's text with the XML white space at both ends cut |
| `XmlTree.TextFieldOk` | src/xml/av_transport.rs:117-120 | a decoded text field occurs once and is the trimmed text of that child |
| `XmlTree.Attribute` | src/xml/rendering_control.rs:41-44 | looks up an attribute of the element by its full name; a missing one is a missing-field error (see `RenderingControlXml.EnvelopeAttributesRequired`, `RenderingControlXml.ActionNamespaceRequired`) |
| `XmlTree.U32Field` | src/xml/rendering_control.rs:122-123 | a `u32` field decodes iff its one child holds only text that, once trimmed, parses below 2^32, to that value; otherwise it is an invalid integer naming the trimmed text |
| `XmlTree.U16Field` | src/xml/rendering_control.rs:225-226 | a `u16` field decodes iff its one child holds only text that, once trimmed, parses below 2^16, to that value |
| `XmlTree.ParseBool` | src/xml/rendering_control.rs:194-195 | `bool` accepts exactly "true", "1", "false" and "0"; true iff "true" or "1" |
| `XmlTree.BoolField` | src/xml/rendering_control.rs:194-195 | reads a `bool` field: its one child's trimmed text spelled as `ParseBool` accepts (see `RenderingControlXml.DecodedValues`, `SetMuteExample`) |
| `RenderingControlXml.DecodeChannel` | src/xml/rendering_control.rs:171-177 | only "Master" decodes; any other text is an unknown variant |
| `RenderingControlXml.ChannelDisplay` | src/xml/rendering_control.rs:179-185 | writes the channel's name, "Master" (see `ChannelRoundTrip`) |
| `RenderingControlXml.ChannelRoundTrip` | src/xml/rendering_control.rs:179-185 | decoding what `Display` writes gives back the channel |
| `RenderingControlXml.DecodePresetName` | src/xml/rendering_control.rs:143-147 | only "FactoryDefaults" decodes; any other text is an unknown variant |
| `RenderingControlXml.PresetNameDisplay` | src/xml/rendering_control.rs:149-155 | writes the preset's name, "FactoryDefaults" (see `PresetNameRoundTrip`) |
| `RenderingControlXml.PresetNameRoundTrip` | src/xml/rendering_control.rs:149-155 | decoding what `Display` writes gives back the preset |
| `RenderingControlXml.TagOf` | src/xml/rendering_control.rs:90-104 | every action is selected by one of the six known tags |
| `RenderingControlXml.ListPresetsOk` | src/xml/rendering_control.rs:116-124 | ListPresets decodes iff `xmlns:u` is present and InstanceID occurs once, holding only text that is a `u32` |
| `RenderingControlXml.SelectPresetOk` | src/xml/rendering_control.rs:127-138 | SelectPreset decodes iff `xmlns:u` is present and PresetName and InstanceID each occur once, holding only text that is a legal value |
| `RenderingControlXml.GetMuteOk` | src/xml/rendering_control.rs:158-169 | GetMute decodes iff `xmlns:u` is present and Channel and InstanceID each occur once, holding only text that is a legal value |
| `RenderingControlXml.SetMuteOk` | src/xml/rendering_control.rs:188-202 | SetMute decodes iff `xmlns:u` is present and DesiredMute, Channel and InstanceID each occur once, holding only text that is a legal value |
| `RenderingControlXml.GetVolumeOk` | src/xml/rendering_control.rs:205-216 | GetVolume decodes iff `xmlns:u` is present and Channel and InstanceID each occur once, holding only text that is a legal value |
| `RenderingControlXml.SetVolumeOk` | src/xml/rendering_control.rs:219-233 | SetVolume decodes iff `xmlns:u` is present and DesiredVolume (`u16`), Channel and InstanceID each occur once, holding only text that is a legal value |
| `RenderingControlXml.DecodeListPresets` | src/xml/rendering_control.rs:116-124 | decodes the ListPresets arguments (see `ListPresetsOk`, `ListPresetsRoundTrip`) |
| `RenderingControlXml.DecodeSelectPreset` | src/xml/rendering_control.rs:127-138 | decodes the SelectPreset arguments (see `SelectPresetOk`, `SelectPresetRoundTrip`) |
| `RenderingControlXml.DecodeGetMute` | src/xml/rendering_control.rs:158-169 | decodes the GetMute arguments (see `GetMuteOk`, `GetMuteRoundTrip`) |
| `RenderingControlXml.DecodeSetMute` | src/xml/rendering_control.rs:188-202 | decodes the SetMute arguments (see `SetMuteOk`, `SetMuteRoundTrip`) |
| `RenderingControlXml.DecodeGetVolume` | src/xml/rendering_control.rs:205-216 | decodes the GetVolume arguments (see `GetVolumeOk`, `GetVolumeRoundTrip`) |
| `RenderingControlXml.DecodeSetVolume` | src/xml/rendering_control.rs:219-233 | decodes the SetVolume arguments (see `SetVolumeOk`, `SetVolumeRoundTrip`) |
| `RenderingControlXml.DecodeRenderingControl` | src/xml/rendering_control.rs:90-104 | decodes an action element, choosing the variant by its tag (see `DecodeSucceedsIff`, `SelectedVariant`, `OnlyKnownTags`, `DecodeRoundTrip`) |
| `RenderingControlXml.DecodeSucceedsIff` | src/xml/rendering_control.rs:115-233 | an action decodes exactly when its element conforms to the schema table: a known tag, `xmlns:u`, and every field once, text only, with a legal value |
| `RenderingControlXml.SelectedVariant` | src/xml/rendering_control.rs:91-104 | the tag selects the variant, which carries what that variant's decoder gives |
| `RenderingControlXml.OnlyKnownTags` | src/xml/rendering_control.rs:90-104 | any other tag fails as an unknown variant, and a decoded action's tag is the element's name |
| `RenderingControlXml.DecodedValues` | src/xml/rendering_control.rs:115-233 | `xmlns:u` is kept verbatim; InstanceID and DesiredVolume are the numbers their trimmed texts denote; DesiredMute is true iff its trimmed text is "true" or "1" |
| `RenderingControlXml.ChannelOtherThanMasterFails` | src/xml/rendering_control.rs:173-177 | a Channel whose trimmed text is not "Master", or one holding an element, makes the action fail, never defaults |
| `RenderingControlXml.PresetOtherThanFactoryDefaultsFails` | src/xml/rendering_control.rs:144-147 | a PresetName whose trimmed text is not "FactoryDefaults", or one holding an element, makes SelectPreset fail |
| `RenderingControlXml.ActionNamespaceRequired` | src/xml/rendering_control.rs:119-120 | without `xmlns:u` no action decodes |
| `RenderingControlXml.ListPresetsRoundTrip` | src/xml/rendering_control.rs:116-124 | decoding the serialized ListPresets gives it back |
| `RenderingControlXml.SelectPresetRoundTrip` | src/xml/rendering_control.rs:127-138 | decoding the serialized SelectPreset gives it back |
| `RenderingControlXml.GetMuteRoundTrip` | src/xml/rendering_control.rs:158-169 | decoding the serialized GetMute gives it back |
| `RenderingControlXml.SetMuteRoundTrip` | src/xml/rendering_control.rs:188-202 | decoding the serialized SetMute gives it back |
| `RenderingControlXml.GetVolumeRoundTrip` | src/xml/rendering_control.rs:205-216 | decoding the serialized GetVolume gives it back |
| `RenderingControlXml.SetVolumeRoundTrip` | src/xml/rendering_control.rs:219-233 | decoding the serialized SetVolume gives it back |
| `RenderingControlXml.DecodeRoundTrip` | src/xml/rendering_control.rs:90-104 | decoding inverts serialization for every action |
| `RenderingControlXml.DecodeEnvelope` | src/xml/rendering_control.rs:38-63 | decodes the envelope: its two attributes, then the one Body's content (see `EnvelopeRoundTrip`, `EnvelopeAttributesRequired`, `EnvelopeIgnored`) |
| `RenderingControlXml.IntoInner` | src/xml/rendering_control.rs:49-55 | gives the action inside the envelope's Body (see `EnvelopeRoundTrip`) |
| `RenderingControlXml.FromStr` | src/xml/rendering_control.rs:106-112 | decodes the envelope and takes the action out of it (see `FromStrIsBodyContent`, `EnvelopeRoundTrip`) |
| `RenderingControlXml.EnvelopeRoundTrip` | src/xml/rendering_control.rs:38-63 | decoding inverts serialization for whole envelopes; `FromStr` gives the inner action |
| `RenderingControlXml.FromStrIsBodyContent` | src/xml/rendering_control.rs:106-112 | parsing gives exactly the decoded content of the one Body; a Body without exactly one child element, or with text beside it, fails |
| `RenderingControlXml.EnvelopeIgnored` | src/xml/rendering_control.rs:49-55 | two envelopes with the same Body parse alike, whatever their attribute values, name and other children |
| `RenderingControlXml.EnvelopeAttributesRequired` | src/xml/rendering_control.rs:40-44 | without `encodingStyle` or `xmlns:s` parsing fails |
| `RenderingControlXml.PaddedFieldsDecode` | src/xml/rendering_control.rs:205-216 | a GetVolume whose Channel and InstanceID carry XML white space around "Master" and a number decodes as if they had none |
| `RenderingControlXml.InstanceIdIsU32` | src/xml/rendering_control.rs:121-123 | a displayed InstanceID decodes iff it is below 2^32; above, it is an invalid integer |
| `RenderingControlXml.DesiredVolumeIsU16` | src/xml/rendering_control.rs:224-226 | a displayed DesiredVolume decodes iff it is below 2^16, with no check against 100 |
| `RenderingControlXml.VolumeInRange` | src/xml/rendering_control.rs:224-226 | every `u16` volume decodes as sent |
| `RenderingControlXml.VolumeOutOfRange` | src/xml/rendering_control.rs:224-226 | a volume of 2^16 or more is an invalid integer |
| `RenderingControlXml.VolumeAboveHundredDecodes` | src/xml/rendering_control.rs:224 | a DesiredVolume of 101 decodes |
| `RenderingControlXml.SetVolumeRequest` | src/xml/rendering_control.rs:65-89 | a whole SetVolume envelope parses to its volume, Master and its instance, whatever the namespaces |
| `RenderingControlXml.SetVolumeExample` | src/xml/rendering_control.rs:72-88 | the documented request decodes to DesiredVolume 50, Master, InstanceID 0 |
| `RenderingControlXml.SetMuteExample` | src/xml/rendering_control.rs:276-285 | a SetMute whose DesiredMute is "1" or "true" decodes with the mute set |
| `AvTransportXml.TagOf` | src/xml/av_transport.rs:85-101 | every action has one of the fourteen tags; the ten simple ones are exactly the variants carrying `Simple` |
| `AvTransportXml.SimpleVariant` | src/xml/av_transport.rs:89-100 | a simple tag builds the variant with that tag |
| `AvTransportXml.SetAVTransportURIOk` | src/xml/av_transport.rs:113-123 | SetAVTransportURI decodes iff `xmlns:u` is present and InstanceID, CurrentURI and CurrentURIMetaData each occur once, holding text only |
| `AvTransportXml.SetNextAVTransportURIOk` | src/xml/av_transport.rs:126-136 | SetNextAVTransportURI decodes iff `xmlns:u` is present and InstanceID, NextURI and NextURIMetaData each occur once, holding text only |
| `AvTransportXml.SimpleOk` | src/xml/av_transport.rs:150-156 | a simple action decodes iff `xmlns:u` is present and InstanceID occurs once, holding text only |
| `AvTransportXml.PlayOk` | src/xml/av_transport.rs:159-167 | Play decodes iff `xmlns:u` is present and Speed and InstanceID each occur once, holding text only |
| `AvTransportXml.SeekOk` | src/xml/av_transport.rs:170-180 | Seek decodes iff `xmlns:u` is present and Target, Unit and InstanceID each occur once, holding text only |
| `AvTransportXml.DecodeSetAVTransportURI` | src/xml/av_transport.rs:113-123 | decodes the SetAVTransportURI arguments (see `SetAVTransportURIOk`, `SetAVTransportURIRoundTrip`) |
| `AvTransportXml.DecodeSetNextAVTransportURI` | src/xml/av_transport.rs:126-136 | decodes the SetNextAVTransportURI arguments (see `SetNextAVTransportURIOk`, `SetNextAVTransportURIRoundTrip`) |
| `AvTransportXml.DecodeSimple` | src/xml/av_transport.rs:150-156 | decodes the `Simple` argument shared by the ten simple actions (see `SimpleOk`, `SimpleRoundTrip`) |
| `AvTransportXml.DecodePlay` | src/xml/av_transport.rs:159-167 | decodes the Play arguments (see `PlayOk`, `PlayRoundTrip`) |
| `AvTransportXml.DecodeSeek` | src/xml/av_transport.rs:170-180 | decodes the Seek arguments (see `SeekOk`, `SeekRoundTrip`) |
| `AvTransportXml.DecodeAvTransport` | src/xml/av_transport.rs:86-100 | decodes an action element, choosing the variant by its tag (see `DecodeSucceedsIff`, `SelectedVariant`, `OnlyKnownTags`, `DecodeRoundTrip`) |
| `AvTransportXml.SelectedVariant` | src/xml/av_transport.rs:86-100 | the tag selects the variant, which carries what that variant's decoder gives |
| `AvTransportXml.DecodeSucceedsIff` | src/xml/av_transport.rs:113-180 | an action decodes exactly when its element conforms to the schema table: a known tag, `xmlns:u`, and every field once and text only |
| `AvTransportXml.OnlyKnownTags` | src/xml/av_transport.rs:85-101 | any other tag fails as an unknown variant, and a decoded action's tag is the element's name |
| `AvTransportXml.SimpleVariantKeeps` | src/xml/av_transport.rs:138-156 | a simple action carries only the `Simple` argument it was built with |
| `AvTransportXml.DecodedValues` | src/xml/av_transport.rs:113-180 | every string field is the text of its one child with the XML white space at its ends cut, and nothing else done to it; the namespace is the `xmlns:u` attribute |
| `AvTransportXml.ActionNamespaceRequired` | src/xml/av_transport.rs:115-116 | without `xmlns:u` no action decodes |
| `AvTransportXml.InstanceIdRequired` | src/xml/av_transport.rs:154-155 | without exactly one InstanceID child holding text only, no action decodes |
| `AvTransportXml.UnescapedMetaDataFails` | src/xml/av_transport.rs:121-122 | a CurrentURIMetaData field holding an element, such as unescaped DIDL-Lite, makes SetAVTransportURI fail |
| `AvTransportXml.Trimmed` | src/xml/av_transport.rs:113-180 | what a decoded action holds after a round trip: same tag and namespace, every text trimmed; it is the action itself exactly when the action's texts are already trimmed |
| `AvTransportXml.TrimmedSimple` | src/xml/av_transport.rs:138-156 | the ten simple actions are trimmed alike, in their InstanceID |
| `AvTransportXml.SetAVTransportURIRoundTrip` | src/xml/av_transport.rs:113-123 | decoding the serialized SetAVTransportURI gives it back, its three texts trimmed |
| `AvTransportXml.SetNextAVTransportURIRoundTrip` | src/xml/av_transport.rs:126-136 | decoding the serialized SetNextAVTransportURI gives it back, its three texts trimmed |
| `AvTransportXml.PlayRoundTrip` | src/xml/av_transport.rs:159-167 | decoding the serialized Play gives it back, its two texts trimmed |
| `AvTransportXml.SeekRoundTrip` | src/xml/av_transport.rs:170-180 | decoding the serialized Seek gives it back, its three texts trimmed |
| `AvTransportXml.SimpleRoundTrip` | src/xml/av_transport.rs:150-156 | decoding a serialized simple action gives back its argument, InstanceID trimmed |
| `AvTransportXml.DecodeRoundTrip` | src/xml/av_transport.rs:86-100 | decoding inverts serialization for every action up to trimming, and exactly for actions whose texts are trimmed |
| `AvTransportXml.DecodedIsStable` | src/xml/av_transport.rs:113-180 | a decoded action's texts are trimmed, so serializing and decoding it again gives it back |
| `AvTransportXml.DecodeEnvelope` | src/xml/av_transport.rs:36-58 | decodes the envelope: its two attributes, then the one Body's content (see `EnvelopeRoundTrip`, `EnvelopeAttributesRequired`, `EnvelopeIgnored`) |
| `AvTransportXml.IntoInner` | src/xml/av_transport.rs:46-51 | gives the action inside the envelope's Body (see `EnvelopeRoundTrip`) |
| `AvTransportXml.FromStr` | src/xml/av_transport.rs:103-110 | decodes the envelope and takes the action out of it (see `FromStrIsBodyContent`, `EnvelopeRoundTrip`) |
| `AvTransportXml.EnvelopeRoundTrip` | src/xml/av_transport.rs:36-58 | decoding inverts serialization for whole envelopes up to trimming; `FromStr` gives the inner action, trimmed |
| `AvTransportXml.FromStrIsBodyContent` | src/xml/av_transport.rs:103-110 | parsing gives exactly the decoded content of the one Body; a Body without exactly one child element, or with text beside it, fails |
| `AvTransportXml.EnvelopeIgnored` | src/xml/av_transport.rs:46-51 | two envelopes with the same Body parse alike, whatever their attribute values, name and other children |
| `AvTransportXml.EnvelopeAttributesRequired` | src/xml/av_transport.rs:37-41 | without `encodingStyle` or `xmlns:s` parsing fails |
| `AvTransportXml.PlayExample` | src/xml/av_transport.rs:68-84 | the documented Play request parses to speed "1", instance "0" |
| `AvTransportXml.SeekExample` | src/xml/av_transport.rs:250-260 | Seek keeps target "12" and unit "REL_TIME" as sent, with the children out of declaration order |
| `AvTransportXml.SeekAnyOrder` | src/xml/av_transport.rs:250-260 | the same Seek decodes alike in every one of the six orders of its three children |
| `AvTransportXml.SetAVTransportURIExample` | src/xml/av_transport.rs:193-203 | the URI with its query string is kept as sent, and an empty CurrentURIMetaData element is "" |
| `AvTransportXml.InstanceIdNotValidated` | src/xml/av_transport.rs:150-156 | any InstanceID text, numeric or not, is accepted, with only the XML white space at its ends cut |
| `AvTransportXml.PaddedInstanceId` | src/xml/av_transport.rs:150-156 | an InstanceID sent as "  0" and a line break is the instance "0" |
| `CrlfLines.ReadLine` | src/ssdp.rs:68-77 | a line read is free of CR and the text is that line, CRLF, and the rest |
| `CrlfLines.ParseLines` | src/ssdp.rs:68-77 | a parse yields well-formed lines whose framing is exactly the text |
| `CrlfLines.ReadFramedLine` | src/ssdp.rs:68-77 | a framed line is read back whole |
| `CrlfLines.ParseFrame` | src/ssdp.rs:68-77 | parsing the framing of well-formed lines gives the lines back |
| `CrlfLines.FrameInjective` | src/ssdp.rs:68-77 | different well-formed line lists give different texts |
| `CrlfLines.FirstLinePrefix` | src/ssdp.rs:163-164 | a framed message begins with its first line |
| `Ssdp.MulticastAddressText` | src/ssdp.rs:23-24 | the multicast destination displays as 239.255.255.250:1900, the HOST value |
| `Ssdp.NotifyLines` | src/ssdp.rs:69-76 | the lines of a NOTIFY for one target and NTS (see `NotifyHeaders`, `OnlyNtsDiffers`) |
| `Ssdp.NotifyMessage` | src/ssdp.rs:68-84 | the NOTIFY text: its lines, each ended by CRLF, then an empty line (see `NotifyHeaders`) |
| `Ssdp.NotifyHeaders` | src/ssdp.rs:67-84 | a NOTIFY reads back as its request line and the HOST, NT, NTS, USN, LOCATION, CACHE-CONTROL and SERVER headers |
| `Ssdp.SearchReplyLines` | src/ssdp.rs:164-172 | the lines of the reply to an M-SEARCH (see `SearchReplyHeaders`) |
| `Ssdp.SearchReply` | src/ssdp.rs:163-178 | the search reply text: its lines, each ended by CRLF, then an empty line (see `SearchReplyHeaders`) |
| `Ssdp.Target` | src/ssdp.rs:105-118 | the k-th of the five NT/USN pairs `notify_all` sends (see `AnnouncedTargets`) |
| `Ssdp.SearchReplyHeaders` | src/ssdp.rs:161-179 | a search reply reads back as its status line and the ST, USN, Location, OPT, Cache-Control, Server, EXT and Date headers |
| `Ssdp.AnnouncedTargets` | src/ssdp.rs:105-118 | the five targets are the root device, the uuid, then the three services; the uuid target's USN equals its NT; every other USN is `uuid:U::` + NT |
| `Ssdp.RenderingControlType` | src/ssdp.rs:116 | the first service announced is `urn:schemas-upnp-org:service:RenderingControl:1` |
| `Ssdp.AVTransportType` | src/ssdp.rs:116 | the second service announced is `urn:schemas-upnp-org:service:AVTransport:1` |
| `Ssdp.ConnectionManagerType` | src/ssdp.rs:116 | the third service announced is `urn:schemas-upnp-org:service:ConnectionManager:1` |
| `Ssdp.Announcements` | src/ssdp.rs:105-121 | the five datagrams `notify_all` sends when every send is delivered (see `AnnouncementLines`, `SSDPServer.NotifyAll`) |
| `Ssdp.AnnouncementLines` | src/ssdp.rs:85-87 | there are five announcements; each goes to the multicast group and reads back as the NOTIFY for its target |
| `Ssdp.OnlyNtsDiffers` | src/ssdp.rs:68-84 | two NOTIFYs for the same target agree on every line except NTS |
| `Ssdp.AliveByebyeDiffer` | src/ssdp.rs:124-144 | alive and byebye send the same messages to the same place, differing only in `NTS: ssdp:alive` versus `NTS: ssdp:byebye` |
| `Ssdp.OwnMessagesClassified` | src/ssdp.rs:147-158 | the server's own NOTIFYs classify as notifications, and its search reply as unknown |
| `Ssdp.FirstFailure` | src/ssdp.rs:108-118 | the count of sends before the first failure: every earlier send succeeds and the next one fails |
| `Ssdp.Classify` | src/ssdp.rs:147-158 | a message is a search iff it starts with `M-SEARCH`, a notification iff it starts with `NOTIFY` |
| `Ssdp.SSDPServer.constructor` | src/ssdp.rs:33-58 | a new server keeps its address, uuid and HTTP port and has sent nothing |
| `Ssdp.SSDPServer.SendTo` | src/ssdp.rs:85-87 | a delivered send appends exactly one datagram; a failed one appends nothing and is reported |
| `Ssdp.SSDPServer.Notify` | src/ssdp.rs:67-89 | one NOTIFY to the multicast group, or nothing and a failure |
| `Ssdp.SSDPServer.NotifyService` | src/ssdp.rs:92-102 | the NOTIFY for one service, with NT the service type and USN `uuid:U::` + that type |
| `Ssdp.SSDPServer.NotifyAll` | src/ssdp.rs:105-121 | sends the five announcements in order up to the first failed send and no further; reports success iff all five went |
| `Ssdp.SSDPServer.Alive` | src/ssdp.rs:124-126 | `notify_all` with `ssdp:alive` |
| `Ssdp.SSDPServer.Byebye` | src/ssdp.rs:142-144 | `notify_all` with `ssdp:byebye` |
| `Ssdp.SSDPServer.Stop` | src/ssdp.rs:214-220 | sends the byebye announcements; a failure is swallowed |
| `Ssdp.SSDPServer.AnswerSearch` | src/ssdp.rs:161-184 | the search reply goes to the sender, whatever the request said |
| `Ssdp.SSDPServer.Answer` | src/ssdp.rs:147-158 | a search gets one reply to its sender; a notification sends nothing and succeeds; anything else sends nothing and is an InvalidData error naming the message |
| `Ssdp.SSDPServer.Replies` | src/ssdp.rs:147-158 | at most one reply, present iff the message is a search and the send is delivered, addressed to the sender |
| `Ssdp.SSDPServer.RunStep` | src/ssdp.rs:192-209 | one receive turn replies only to IPv4 datagrams; an IPv6 sender, WouldBlock and receive errors send nothing |
| `Http.HandleRequest` | src/http.rs:57-81 | 405 iff the method is neither GET nor POST; 718 iff POST to a service path; 200 iff GET to one; 404 iff GET or POST elsewhere |
| `Http.EndpointOf` | src/http.rs:69-79 | a path names an endpoint iff it is one of the four service paths, matched whole |
| `Http.EndpointPathRoundTrip` | src/http.rs:71-76 | each endpoint's path is a service path naming that endpoint |
| `Http.Routed` | src/http.rs:57-81 | the response by method and the endpoint the path names, if any (see `HandleRequestRouted`) |
| `Http.Placeholder` | src/http.rs:89-106 | the 200 placeholder text of each GET handler (see `GetServicePlaceholder`) |
| `Http.HandleRequestRouted` | src/http.rs:57-81 | the router equals the endpoint-first description on every request |
| `Http.MethodCheckedFirst` | src/http.rs:58-67 | any method but GET and POST is refused with 405 "Method Not Allowed" on every path |
| `Http.PostToServiceRefused` | src/http.rs:84-87 | a POST to any service path gets 718 "Invalid InstanceID" |
| `Http.GetServicePlaceholder` | src/http.rs:73-76 | a GET to a service path gets status 200 and that service's placeholder |
| `Http.OtherPathNotFound` | src/http.rs:110-112 | GET or POST to any other path gets 404 "Not Found" |
| `Http.ServicePathsPrefixFree` | src/http.rs:71-76 | no service path is a prefix of another |
| `Http.SuffixedPathNotFound` | src/http.rs:68-79 | a service path with anything appended, such as a trailing slash or a query, gets 404 |
| `Http.ServiceResponses` | src/http.rs:63-111 | the fixed answers: GET and POST on `/AVTransport`; GET on `/AVTransport/`; HEAD; GET on `/description.xml` |
| `Extractor.RunEnd` | src/extractor.rs:8 | the longest run without '<' ends at the first '<' or at the end |
| `Extractor.MatchesAtIff` | src/extractor.rs:7-8 | the executable test at a position holds iff a match starts there, and its capture is the only one there |
| `Extractor.FindFrom` | src/extractor.rs:18 | the first match at or after a position, with none between |
| `Extractor.Find` | src/extractor.rs:18-19 | leftmost match: what is found is a match, no match starts earlier, and nothing is found iff there is no match |
| `Extractor.CurrentUri` | src/extractor.rs:7-8 | the leftmost CurrentURI match and its capture (see `CurrentUriLogged`, `CurrentUriReported`) |
| `Extractor.NextUri` | src/extractor.rs:10-11 | the leftmost NextURI match and its capture (see `NextUriLogged`, `NextUriReported`) |
| `Extractor.Extracted` | src/extractor.rs:14-32 | the lines `extract` returns: the current-URI line if found, then the next-URI line if found, on `/AVTransport` only (see `Extract`, `AtMostTwoInOrder`, `OtherPathsLogNothing`) |
| `Extractor.TrimStart` | src/extractor.rs:20 | drops exactly the leading white space |
| `Extractor.TrimEnd` | src/extractor.rs:20 | drops exactly the trailing white space |
| `Extractor.Trim` | src/extractor.rs:20 | `str::trim`: drops white space at both ends (see `TrimSlice`, `TrimEnds`, `TrimIdempotent`, `TrimKeeps`) |
| `Extractor.TrimSlice` | src/extractor.rs:20 | trimming keeps a slice of the text and removes only white space around it |
| `Extractor.TrimEnds` | src/extractor.rs:20 | a trimmed value neither begins nor ends with white space |
| `Extractor.TrimIdempotent` | src/extractor.rs:20 | trimming twice is trimming once |
| `Extractor.TrimNoLt` | src/extractor.rs:20 | trimming a run without '<' gives text without '<' |
| `Extractor.TrimKeeps` | src/extractor.rs:20 | text with no white space at either end is kept as is |
| `Extractor.Extract` | src/extractor.rs:14-32 | the pushes build exactly the current-URI line if found, then the next-URI line if found, on `/AVTransport` only |
| `Extractor.LabelsDistinct` | src/extractor.rs:20-25 | a current-URI line never starts like a next-URI line, and the reverse |
| `Extractor.OtherPathsLogNothing` | src/extractor.rs:14-31 | any path but `/AVTransport` gives no lines |
| `Extractor.AtMostTwoInOrder` | src/extractor.rs:17-28 | at most two lines; with two, the current URI's comes first |
| `Extractor.CurrentUriLogged` | src/extractor.rs:18-22 | a current-URI line is present iff the body has `<CurrentURI>`, a non-empty run without '<', and `</CurrentURI>`, whatever it says about NextURI |
| `Extractor.NextUriLogged` | src/extractor.rs:23-27 | a next-URI line is present iff the body has `<NextURI>`, a non-empty run without '<', and `</NextURI>`, whatever it says about CurrentURI |
| `Extractor.LeftmostFound` | src/extractor.rs:18-19 | the leftmost match is the one found |
| `Extractor.CurrentUriReported` | src/extractor.rs:18-21 | the first line reports the trimmed run of the leftmost CurrentURI match |
| `Extractor.NextUriReported` | src/extractor.rs:23-26 | the last line reports the trimmed run of the leftmost NextURI match |
| `Extractor.LoggedValueHasNoLt` | src/extractor.rs:8-11 | the reported value holds no '<' |
| `Extractor.MatchInside` | src/extractor.rs:7-8 | tags around a non-empty run without '<' match wherever they stand |
| `Extractor.LeadingCurrentUri` | src/extractor.rs:6-8 | a body opening with a CurrentURI element logs its URI first, verbatim |
| `Extractor.DocumentedExample` | src/extractor.rs:6 | `<CurrentURI>https://my-secret.com</CurrentURI>` logs `Current URI: https://my-secret.com` first |

## Left out

- XML text handling: tokenising, entity decoding, namespace-prefix stripping and the
  XML declaration belong to quick_xml. The model decodes an element tree whose names
  already have their prefixes stripped. Of quick_xml's text handling only the trimming
  of XML white space at both ends of a field's text is modelled (`XmlTrim`).
- quick_xml's `bool` spelling: the model takes quick_xml's ("true"/"1" and
  "false"/"0"), not an abstract predicate.
- Text directly inside an action element or the envelope, and attributes of field
  elements, are taken to be ignored, as quick_xml does for a struct with no `$text`
  field. The white space that counts as blank is XML's (space, tab, CR, LF).
- Which `DeError` is reported when several fields are wrong: the model checks fields
  in declaration order. The claims are about success or failure and the values
  decoded, not about which error is reported.
- The derived `Serialize` is modelled only as the element tree it describes
  (`ToElement`), not as XML text.
- Sockets and the async runtime: `SSDPServer::new`'s socket2 setup and multicast
  join, tokio's `send_to`/`recv_from`, and tiny_http's `Server`/`try_recv`. A send is
  an append to `outbox`, and its success is a parameter.
- `keep_alive`'s sleeping loop, the endless receive loop of `run` (one turn is
  `RunStep`), and `HTTPServer::run`'s polling loop: timing and concurrency.
- `run`'s 4096-byte buffer and `String::from_utf8_lossy`: a datagram arrives as text.
- The `Date:` header comes from the clock. It is a parameter.
- `request.respond` and tiny_http response headers: a response is a status and a body.
- Logging everywhere.
- src/lib.rs, src/main.rs, src/defaults.rs and src/xml/mod.rs are not part of this
  model: threads, configuration, defaults from the host, and re-exports.
- `Ssdp.NotifyHeaders`, `Ssdp.SearchReplyHeaders`, `Ssdp.AnnouncementLines` and `Ssdp.AliveByebyeDiffer` need the uuid,
  NTS and date to hold no CR. The message text is still defined for every input.
- `Extractor.Find`: the regex engine is replaced by a search over `char`s. Regex
  semantics over bytes or invalid UTF-8 do not arise, because the text is a Rust `&str`.
