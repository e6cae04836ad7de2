/** The choice of unit in `formatFileSize` of script.js: zero is the literal
    text "0 Bytes"; any other byte count is shown in the largest power of
    1024 that does not exceed it, named from a four-entry table. The digits
    in front of the unit come from floating point and are not modelled.
 */
module FileSize {

  const Base: nat := 1024

  /** The unit names, indexed by the power of 1024. */
  const Units: seq<string> := ["Bytes", "KB", "MB", "GB"]

  /** The text returned for a count of zero bytes. */
  const ZeroText: string := "0 Bytes"

  /** A unit name as the label shows it: an entry of `Units`, or JavaScript's
      `undefined` when the index runs past the end of the table. */
  datatype UnitName = Named(text: string) | Undefined

  /** What `formatFileSize` returns: a literal text, or a number scaled by
      1024^unitIndex followed by the unit name. */
  datatype SizeLabel = Text(text: string) | Scaled(unitIndex: nat, unit: UnitName)

  /** 1024^e. */
  function Power(e: nat): (p: nat)
    ensures p >= 1
  {
    if e == 0 then 1 else Base * Power(e - 1)
  }

  /** Higher exponents give larger powers of 1024. */
  lemma {:induction false} PowerMonotone(i: nat, j: nat)
    requires i <= j
    ensures Power(i) <= Power(j)
    decreases j - i
  {
    if i < j {
      PowerMonotone(i, j - 1);
    }
  }

  /** The idealised `Math.floor(Math.log(bytes) / Math.log(1024))`: the
      exponent of the largest power of 1024 that is at most `bytes`. */
  function UnitIndex(bytes: nat): (i: nat)
    requires bytes > 0
    ensures Power(i) <= bytes < Power(i + 1)
    decreases bytes
  {
    if bytes < Base then
      0
    else
      var j := UnitIndex(bytes / Base);
      assert Base * (bytes / Base) <= bytes < Base * (bytes / Base + 1);
      assert Base * (bytes / Base + 1) <= Base * Power(j + 1);
      1 + j
  }

  /** `UnitIndex(bytes)` is the largest `i` with 1024^i <= bytes: every
      exponent up to it qualifies, and none above it does. */
  lemma UnitIndexIsLargest(bytes: nat, i: nat)
    requires bytes > 0
    ensures Power(i) <= bytes <==> i <= UnitIndex(bytes)
  {
    var k := UnitIndex(bytes);
    if i <= k {
      PowerMonotone(i, k);
    } else {
      PowerMonotone(k + 1, i);
    }
  }

  /** The index stays inside the four-entry table exactly for counts below
      1024^4; from 1024^4 bytes on it points past the end. */
  lemma UnitIndexInTableIff(bytes: nat)
    requires bytes > 0
    ensures UnitIndex(bytes) < |Units| <==> bytes < Power(|Units|)
  {
    UnitIndexIsLargest(bytes, |Units|);
  }

  /** The label `formatFileSize` produces, up to the digits of the number. */
  function FormatFileSize(bytes: nat): (r: SizeLabel)
    ensures bytes == 0 <==> r == Text(ZeroText)
    ensures bytes > 0 ==> r.Scaled? && Power(r.unitIndex) <= bytes < Base * Power(r.unitIndex)
    ensures r.Scaled? ==> (r.unit.Named? <==> bytes < Power(|Units|))
    ensures r.Scaled? && r.unit.Named? ==> r.unitIndex < |Units| && r.unit.text == Units[r.unitIndex]
  {
    if bytes == 0 then
      Text(ZeroText)
    else
      var i := UnitIndex(bytes);
      UnitIndexInTableIff(bytes);
      Scaled(i, if i < |Units| then Named(Units[i]) else Undefined)
  }

  /** Sample labels: 1023 bytes stay in bytes, 1024 and 1536 bytes are shown
      in KB, and 1024^4 bytes has no unit name. */
  lemma FormatFileSizeExamples()
    ensures FormatFileSize(0) == Text("0 Bytes")
    ensures FormatFileSize(1023) == Scaled(0, Named("Bytes"))
    ensures FormatFileSize(1024) == Scaled(1, Named("KB"))
    ensures FormatFileSize(1536) == Scaled(1, Named("KB"))
    ensures FormatFileSize(1024 * 1024 * 1024 * 1024) == Scaled(4, Undefined)
  {
  }
}
