/** The stylist detail page (frontend/src/pages/StylistDetail.jsx): the service keys it knows, the
    labels it shows for them, and the list of labels it renders. */
module StylistDetail {
  import opened Wrappers
  import opened Sequences

  /** The keys `serviceNameMapper` has a `case` for, in the order of its `switch`. */
  const ServiceKeys: seq<string> :=
    ["HAIRCUT", "HAIR_COLORING", "HAIR_STYLING", "HAIR_TREATMENT", "HAIR_REMOVAL",
     "NAIL", "SKIN_CARE", "MAKE_UP", "OTHERS"]

  /** The label each of those cases returns, position by position. */
  const ServiceLabels: seq<string> :=
    ["Haircut", "Hair Coloring", "Hair Styling", "Hair Treatment", "Hair Removal",
     "Nail Care", "Skin Care", "Make Up", "Others"]

  /** `serviceNameMapper` (lines 21-43): a `switch` on the key with one `return` per case and no
      `default`, so any other key falls off the end and yields `undefined` (here `None`). The
      local `value` of line 22 is never used; the result depends on the key alone. */
  function ServiceNameMapper(key: string): (display: Option<string>)
    ensures display.Some? <==> key in ServiceKeys
    ensures forall i :: 0 <= i < |ServiceKeys| && ServiceKeys[i] == key ==> display == Some(ServiceLabels[i])
  {
    if key == "HAIRCUT" then Some("Haircut")
    else if key == "HAIR_COLORING" then Some("Hair Coloring")
    else if key == "HAIR_STYLING" then Some("Hair Styling")
    else if key == "HAIR_TREATMENT" then Some("Hair Treatment")
    else if key == "HAIR_REMOVAL" then Some("Hair Removal")
    else if key == "NAIL" then Some("Nail Care")
    else if key == "SKIN_CARE" then Some("Skin Care")
    else if key == "MAKE_UP" then Some("Make Up")
    else if key == "OTHERS" then Some("Others")
    else None
  }

  /** No two keys share a label. */
  lemma LabelsDistinct()
    ensures |ServiceLabels| == |ServiceKeys|
    ensures Distinct(ServiceLabels)
  {
  }

  /** The mapper is one-to-one on the keys it knows: a label determines its key. */
  lemma MapperInjective(k1: string, k2: string)
    requires ServiceNameMapper(k1).Some? && ServiceNameMapper(k1) == ServiceNameMapper(k2)
    ensures k1 == k2
  {
  }

  /** One element of `serviceTypes`; only its `name` is read. */
  datatype ServiceTypeEntry = ServiceTypeEntry(name: string)

  /** The fetched stylist, as far as the service list goes. `serviceTypes` is `None` before the
      fetch completes (the state starts as `{}`) and whenever the record has none. */
  datatype StylistRecord = StylistRecord(serviceTypes: Option<seq<ServiceTypeEntry>>)

  /** `serviceTypes.map(service => serviceNameMapper(service.name))`: one label per entry, in order. */
  function MapLabels(entries: seq<ServiceTypeEntry>): (labels: seq<Option<string>>)
    ensures |labels| == |entries|
    ensures forall i :: 0 <= i < |entries| ==> labels[i] == ServiceNameMapper(entries[i].name)
  {
    if |entries| == 0 then [] else [ServiceNameMapper(entries[0].name)] + MapLabels(entries[1..])
  }

  /** The service labels the page renders (lines 62-66): `None` (the `null` branch) when the
      record has no `serviceTypes`, otherwise one label (`None` for an unknown key) per entry;
      an empty list is truthy in JavaScript and renders as an empty list. */
  function RenderServiceLabels(stylist: StylistRecord): (spans: Option<seq<Option<string>>>)
    ensures spans.None? <==> stylist.serviceTypes.None?
    ensures spans.Some? ==>
      && |spans.value| == |stylist.serviceTypes.value|
      && forall i :: 0 <= i < |spans.value| ==>
           spans.value[i] == ServiceNameMapper(stylist.serviceTypes.value[i].name)
  {
    match stylist.serviceTypes
    case None => None
    case Some(entries) => Some(MapLabels(entries))
  }

  /** Rendering commutes with list concatenation: the labels of two runs of entries are the two
      runs of labels. */
  lemma {:induction false} MapLabelsAppend(a: seq<ServiceTypeEntry>, b: seq<ServiceTypeEntry>)
    ensures MapLabels(a + b) == MapLabels(a) + MapLabels(b)
  {
    if |a| > 0 {
      assert (a + b)[1..] == a[1..] + b;
      MapLabelsAppend(a[1..], b);
    } else {
      assert a + b == b;
    }
  }

  /** Every rendered label is a known one: it is in ServiceLabels exactly when its entry's key
      is in ServiceKeys. */
  lemma RenderedLabelsKnown(stylist: StylistRecord, i: int)
    requires stylist.serviceTypes.Some? && 0 <= i < |stylist.serviceTypes.value|
    ensures var spans := RenderServiceLabels(stylist).value;
      (spans[i].Some? <==> stylist.serviceTypes.value[i].name in ServiceKeys)
      && (spans[i].Some? ==> spans[i].value in ServiceLabels)
  {
  }
}
