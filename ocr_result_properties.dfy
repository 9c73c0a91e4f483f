/** What the decoder of `OcrResultUtils` guarantees about the keys it writes. */
module OcrResultProperties {
  import opened Wrappers
  import opened Text
  import opened Jacob
  import opened OcrConstants
  import opened OcrException
  import opened OcrProperties
  import opened OcrResultUtils

  /** `r` and `m` agree on key `k`: both lack it or both hold the same value. */
  predicate Agree(r: map<string, string>, m: map<string, string>, k: string) {
    (k in r <==> k in m) && (k in m ==> r[k] == m[k])
  }

  /** No output of `os` is stored under `k`. */
  predicate NotListed(os: seq<A2iaOutput>, k: string) {
    forall j :: 0 <= j < |os| ==> os[j].key != k
  }

  predicate DistinctKeys(os: seq<A2iaOutput>) {
    forall i, j :: 0 <= i < j < |os| ==> os[i].key != os[j].key
  }

  /** `k` is one of the four configured address sub-keys. */
  predicate IsSubKey(keys: ResultKeys, k: string) {
    k == keys.addressName || k == keys.addressDestination || k == keys.addressPhone || k == keys.addressCityZip
  }

  predicate SubKeysDistinct(keys: ResultKeys) {
    forall t, u: AddressTag :: t != u ==> SubKey(keys, t) != SubKey(keys, u)
  }

  // ---------------------------------------------------------------------------------------
  // Simple and date fields

  /** After reading `o` over `m`, `r` holds `o`'s key exactly when its zone is present (with the
      coerced value) or the key was already there (with its old value). */
  predicate SimpleFieldRead(r: map<string, string>, m: map<string, string>, o: A2iaOutput, zones: Zones, coerce: Coercion) {
    (o.key in r <==> o.outputZoneName in zones || o.key in m)
    && (o.outputZoneName in zones ==> r[o.key] == coerce(zones[o.outputZoneName], o.outputZoneType))
    && (o.outputZoneName !in zones && o.key in m ==> r[o.key] == m[o.key])
  }

  /** The three sub-zones of a date output are all present. */
  predicate DatePresent(o: A2iaOutput, zones: Zones) {
    o.outputZoneName + ".day" in zones && o.outputZoneName + ".month" in zones && o.outputZoneName + ".year" in zones
  }

  /** The same for a date output, which needs all three sub-zones. */
  predicate DateFieldRead(r: map<string, string>, m: map<string, string>, o: A2iaOutput, zones: Zones, coerce: Coercion) {
    var z := o.outputZoneName;
    (o.key in r <==> DatePresent(o, zones) || o.key in m)
    && (DatePresent(o, zones) ==> r[o.key] == DateText(zones[z + ".day"], zones[z + ".month"], zones[z + ".year"], coerce))
    && (!DatePresent(o, zones) && o.key in m ==> r[o.key] == m[o.key])
  }

  /** Reading a list of simple outputs with distinct keys writes each key exactly when its zone is
      present, with the coerced value, and leaves every other key as it was. */
  lemma {:induction false} ReadEachFields(m: map<string, string>, os: seq<A2iaOutput>, zones: Zones, coerce: Coercion)
    requires DistinctKeys(os)
    ensures forall j :: 0 <= j < |os| ==> SimpleFieldRead(ReadEach(m, os, zones, coerce), m, os[j], zones, coerce)
    ensures forall k :: NotListed(os, k) ==> Agree(ReadEach(m, os, zones, coerce), m, k)
    decreases |os|
  {
    if os != [] {
      var init, last := os[..|os| - 1], os[|os| - 1];
      assert DistinctKeys(init);
      ReadEachFields(m, init, zones, coerce);
      var r0 := ReadEach(m, init, zones, coerce);
      assert ReadEach(m, os, zones, coerce) == ReadSimple(r0, last, zones, coerce);
      forall j | 0 <= j < |os| ensures SimpleFieldRead(ReadEach(m, os, zones, coerce), m, os[j], zones, coerce) {
        if j < |os| - 1 {
          assert os[j] == init[j] && os[j].key != last.key;
          assert SimpleFieldRead(r0, m, init[j], zones, coerce);
        } else {
          assert NotListed(init, last.key) by {
            forall i | 0 <= i < |init| ensures init[i].key != last.key {
              assert init[i] == os[i];
            }
          }
        }
      }
      forall k | NotListed(os, k) ensures NotListed(init, k) {
      }
    }
  }

  /** The same for a list of date outputs: each key is written exactly when its three sub-zones
      are present. */
  lemma {:induction false} ReadEachDateFields(m: map<string, string>, os: seq<A2iaOutput>, zones: Zones, coerce: Coercion)
    requires DistinctKeys(os)
    ensures forall j :: 0 <= j < |os| ==> DateFieldRead(ReadEachDate(m, os, zones, coerce), m, os[j], zones, coerce)
    ensures forall k :: NotListed(os, k) ==> Agree(ReadEachDate(m, os, zones, coerce), m, k)
    decreases |os|
  {
    if os != [] {
      var init, last := os[..|os| - 1], os[|os| - 1];
      assert DistinctKeys(init);
      ReadEachDateFields(m, init, zones, coerce);
      var r0 := ReadEachDate(m, init, zones, coerce);
      assert ReadEachDate(m, os, zones, coerce) == ReadDate(r0, last, zones, coerce);
      forall j | 0 <= j < |os| ensures DateFieldRead(ReadEachDate(m, os, zones, coerce), m, os[j], zones, coerce) {
        if j < |os| - 1 {
          assert os[j] == init[j] && os[j].key != last.key;
          assert DateFieldRead(r0, m, init[j], zones, coerce);
        } else {
          assert NotListed(init, last.key) by {
            forall i | 0 <= i < |init| ensures init[i].key != last.key {
              assert init[i] == os[i];
            }
          }
        }
      }
      forall k | NotListed(os, k) ensures NotListed(init, k) {
      }
    }
  }

  // ---------------------------------------------------------------------------------------
  // Multi-line blocks

  /** What line `i` adds to the block text: its text and a space when it is present. */
  function LineText(zone: string, i: int, zones: Zones, coerce: Coercion): string {
    var wreco := LinePath(zone, i, "wreco");
    if wreco in zones then ToText(coerce, zones[wreco]) + " " else ""
  }

  /** The text of lines 1..n of a block: every present line, each followed by one space. */
  function PresentLinesText(zone: string, n: nat, zones: Zones, coerce: Coercion): string
    decreases n
  {
    if n == 0 then "" else PresentLinesText(zone, n - 1, zones, coerce) + LineText(zone, n, zones, coerce)
  }

  /** The last line among 1..n that is present and tagged `t`. */
  function LastTaggedLine(zone: string, n: nat, t: AddressTag, zones: Zones, coerce: Coercion): (r: Option<nat>)
    ensures r.Some? ==> 1 <= r.value <= n && LinePath(zone, r.value, "wreco") in zones
    decreases n
  {
    if n == 0 then None
    else
      var wreco, typePath := LinePath(zone, n, "wreco"), LinePath(zone, n, "type");
      if wreco in zones && typePath in zones && TagOf(ToText(coerce, zones[typePath])) == Some(t) then Some(n)
      else LastTaggedLine(zone, n - 1, t, zones, coerce)
  }

  /** Reading one line adds its text and a space to the block text when the line is present. */
  lemma ReadLineText(b: Block, zone: string, i: int, zones: Zones, coerce: Coercion, keys: ResultKeys)
    requires ReadLine(b, zone, i, zones, coerce, keys).Ok?
    ensures ReadLine(b, zone, i, zones, coerce, keys).value.text == b.text + LineText(zone, i, zones, coerce)
  {
    var wreco := LinePath(zone, i, "wreco");
    if wreco in zones {
      var line := ToText(coerce, zones[wreco]);
      assert b.text + line + " " == b.text + (line + " ");
    } else {
      assert b.text + "" == b.text;
    }
  }

  /** When lines 1..n read without error, the block text is the text of the present lines. */
  lemma {:induction false} ReadLinesText(m: map<string, string>, zone: string, n: nat, zones: Zones, coerce: Coercion, keys: ResultKeys)
    requires ReadLines(m, zone, n, zones, coerce, keys).Ok?
    ensures ReadLines(m, zone, n, zones, coerce, keys).value.text == PresentLinesText(zone, n, zones, coerce)
    decreases n
  {
    if n > 0 {
      ReadLinesText(m, zone, n - 1, zones, coerce, keys);
      var prev := ReadLines(m, zone, n - 1, zones, coerce, keys).value;
      assert ReadLines(m, zone, n, zones, coerce, keys) == ReadLine(prev, zone, n, zones, coerce, keys);
      ReadLineText(prev, zone, n, zones, coerce, keys);
      assert PresentLinesText(zone, n, zones, coerce) == PresentLinesText(zone, n - 1, zones, coerce) + LineText(zone, n, zones, coerce);
    }
  }

  /** Reading lines writes no key but the four sub-keys. */
  lemma {:induction false} ReadLinesOthers(m: map<string, string>, zone: string, n: nat, zones: Zones, coerce: Coercion, keys: ResultKeys)
    requires ReadLines(m, zone, n, zones, coerce, keys).Ok?
    ensures var b := ReadLines(m, zone, n, zones, coerce, keys).value;
      forall k :: !IsSubKey(keys, k) ==> Agree(b.entries, m, k)
    decreases n
  {
    if n > 0 {
      ReadLinesOthers(m, zone, n - 1, zones, coerce, keys);
    }
  }

  /** With distinct sub-keys, each holds the text of the last line carrying its tag, or is as in
      `m` when no line carries it. */
  lemma {:induction false} ReadLinesTags(m: map<string, string>, zone: string, n: nat, zones: Zones, coerce: Coercion, keys: ResultKeys)
    requires SubKeysDistinct(keys)
    requires ReadLines(m, zone, n, zones, coerce, keys).Ok?
    ensures var b := ReadLines(m, zone, n, zones, coerce, keys).value;
      forall t: AddressTag ::
        match LastTaggedLine(zone, n, t, zones, coerce)
        case None => Agree(b.entries, m, SubKey(keys, t))
        case Some(i) => SubKey(keys, t) in b.entries
                        && b.entries[SubKey(keys, t)] == ToText(coerce, zones[LinePath(zone, i, "wreco")])
    decreases n
  {
    if n > 0 {
      ReadLinesTags(m, zone, n - 1, zones, coerce, keys);
    }
  }

  /** When lines 1..n read without error, the block text is the text of the present lines, every
      key but the four sub-keys is untouched, and each sub-key holds the text of the last line
      carrying its tag (or is untouched when no line carries it). */
  lemma ReadLinesContents(m: map<string, string>, zone: string, n: nat, zones: Zones, coerce: Coercion, keys: ResultKeys)
    requires SubKeysDistinct(keys)
    requires ReadLines(m, zone, n, zones, coerce, keys).Ok?
    ensures var b := ReadLines(m, zone, n, zones, coerce, keys).value;
      b.text == PresentLinesText(zone, n, zones, coerce)
      && (forall k :: !IsSubKey(keys, k) ==> Agree(b.entries, m, k))
      && forall t: AddressTag ::
           match LastTaggedLine(zone, n, t, zones, coerce)
           case None => Agree(b.entries, m, SubKey(keys, t))
           case Some(i) => SubKey(keys, t) in b.entries
                           && b.entries[SubKey(keys, t)] == ToText(coerce, zones[LinePath(zone, i, "wreco")])
  {
    ReadLinesText(m, zone, n, zones, coerce, keys);
    ReadLinesOthers(m, zone, n, zones, coerce, keys);
    ReadLinesTags(m, zone, n, zones, coerce, keys);
  }

  /** A multi-line block that is read writes nothing but its block key and the four sub-keys;
      one whose count is absent, null or not positive writes nothing at all. */
  lemma ReadMultiLinesKeys(m: map<string, string>, o: A2iaOutput, zones: Zones, coerce: Coercion, keys: ResultKeys)
    requires SubKeysDistinct(keys)
    requires ReadMultiLines(m, o, zones, coerce, keys).Ok?
    ensures var r := ReadMultiLines(m, o, zones, coerce, keys).value;
      forall k :: k != o.key && !IsSubKey(keys, k) ==> Agree(r, m, k)
    ensures var z := o.outputZoneName;
      (z !in zones || IsNull(zones[z]) || (zones[z].Int? && zones[z].n <= 0)) ==>
        ReadMultiLines(m, o, zones, coerce, keys).value == m
  {
    var z := o.outputZoneName;
    if z in zones && !IsNull(zones[z]) && zones[z].Int? && zones[z].n > 0 {
      ReadLinesContents(m, z, zones[z].n, zones, coerce, keys);
    }
  }

  /** A block whose count is a positive integer ends up, when read without error, holding the
      text of its present lines 1..count, each followed by a space, under the block key; and each
      sub-key holds the text of the last line with that tag. */
  lemma MultiLinesBlock(m: map<string, string>, o: A2iaOutput, zones: Zones, coerce: Coercion, keys: ResultKeys, t: AddressTag)
    requires SubKeysDistinct(keys) && !IsSubKey(keys, o.key)
    requires o.outputZoneName in zones && zones[o.outputZoneName].Int? && zones[o.outputZoneName].n > 0
    requires ReadMultiLines(m, o, zones, coerce, keys).Ok?
    ensures var r := ReadMultiLines(m, o, zones, coerce, keys).value;
      var count := zones[o.outputZoneName].n;
      o.key in r && r[o.key] == PresentLinesText(o.outputZoneName, count, zones, coerce)
      && match LastTaggedLine(o.outputZoneName, count, t, zones, coerce)
         case None => Agree(r, m, SubKey(keys, t))
         case Some(i) => SubKey(keys, t) in r
                         && r[SubKey(keys, t)] == ToText(coerce, zones[LinePath(o.outputZoneName, i, "wreco")])
  {
    var z := o.outputZoneName;
    ReadLinesContents(m, z, zones[z].n, zones, coerce, keys);
  }

  // ---------------------------------------------------------------------------------------
  // The schemas

  /** The keys a RIB result may hold: its seven fields, its address block and the sub-keys. */
  predicate IsRibKey(keys: ResultKeys, k: string) {
    (exists j :: 0 <= j < |RibOutputs(keys)| && RibOutputs(keys)[j].key == k) || k == keys.ribAddress || IsSubKey(keys, k)
  }

  /** With distinct keys, a decoded RIB holds each of its seven fields exactly when the engine
      returned its zone, with the coerced value, and holds no key beyond its schema. */
  lemma RibSchemaFields(zones: Zones, keys: ResultKeys, coerce: Coercion)
    requires DistinctKeys(RibOutputs(keys)) && SubKeysDistinct(keys)
    requires forall j :: 0 <= j < |RibOutputs(keys)| ==>
      RibOutputs(keys)[j].key != keys.ribAddress && !IsSubKey(keys, RibOutputs(keys)[j].key)
    requires RibResult(zones, keys, coerce).Ok?
    ensures var r := RibResult(zones, keys, coerce).value;
      var os := RibOutputs(keys);
      (forall j :: 0 <= j < |os| ==>
        (os[j].key in r <==> os[j].outputZoneName in zones)
        && (os[j].key in r ==> r[os[j].key] == coerce(zones[os[j].outputZoneName], VariantString)))
      && forall k :: k in r ==> IsRibKey(keys, k)
  {
    var os := RibOutputs(keys);
    var m := ReadEach(map[], os, zones, coerce);
    ReadEachFields(map[], os, zones, coerce);
    ReadMultiLinesKeys(m, RibAddress(keys), zones, coerce, keys);
    var r := RibResult(zones, keys, coerce).value;
    forall j | 0 <= j < |os| ensures Agree(r, m, os[j].key) {
    }
    forall k | k in r ensures IsRibKey(keys, k) {
      if k != keys.ribAddress && !IsSubKey(keys, k) {
        assert Agree(r, m, k);
        assert !NotListed(os, k);
      }
    }
  }

  /** A decoded tax assessment holds the amount exactly when its zone is present, as a float, and
      the date exactly when its three sub-zones are present (when these two keys differ from each
      other and from the address keys); every other key it holds is one of the address block. */
  lemma TaxAssessmentSchemaFields(zones: Zones, keys: ResultKeys, coerce: Coercion)
    requires SubKeysDistinct(keys)
    requires keys.taxDate != keys.taxAmount && keys.taxDate != keys.taxAddress && !IsSubKey(keys, keys.taxDate)
    requires keys.taxAmount != keys.taxAddress && !IsSubKey(keys, keys.taxAmount)
    requires TaxAssessmentResult(zones, keys, coerce).Ok?
    ensures var r := TaxAssessmentResult(zones, keys, coerce).value;
      var amount, date := OUTPUT_ZONE_TAX_ASSESSMENT_TAX_AMOUNT, OUTPUT_ZONE_TAX_ASSESSMENT_ESTABLISHED_DATE;
      var datePresent := date + ".day" in zones && date + ".month" in zones && date + ".year" in zones;
      (keys.taxAmount in r <==> amount in zones)
      && (amount in zones ==> r[keys.taxAmount] == coerce(zones[amount], VariantFloat))
      && (keys.taxDate in r <==> datePresent)
      && (datePresent ==> r[keys.taxDate] == DateText(zones[date + ".day"], zones[date + ".month"], zones[date + ".year"], coerce))
      && forall k :: k in r ==> k == keys.taxAmount || k == keys.taxDate || k == keys.taxAddress || IsSubKey(keys, k)
  {
    ReadMultiLinesKeys(map[], TaxAssessmentAddress(keys), zones, coerce, keys);
  }

  /** The nine fields an identity result may hold. */
  function IdentityFields(keys: ResultKeys): seq<A2iaOutput> {
    IdentityOutputs(keys) + IdentityDates(keys)
  }

  /** With distinct keys, a decoded identity document holds each simple field exactly when its
      zone is present, with the coerced value, and each date exactly when its three sub-zones are
      present, as `day/month/year`; it holds nothing else. */
  lemma IdentitySchemaFields(zones: Zones, keys: ResultKeys, coerce: Coercion)
    requires DistinctKeys(IdentityFields(keys))
    ensures var r := IdentityResult(zones, keys, coerce);
      var os, ds := IdentityOutputs(keys), IdentityDates(keys);
      (forall j :: 0 <= j < |os| ==>
        (os[j].key in r <==> os[j].outputZoneName in zones)
        && (os[j].key in r ==> r[os[j].key] == coerce(zones[os[j].outputZoneName], os[j].outputZoneType)))
      && (forall j :: 0 <= j < |ds| ==>
            (ds[j].key in r <==> DatePresent(ds[j], zones))
            && (DatePresent(ds[j], zones) ==>
                  r[ds[j].key] == DateText(zones[ds[j].outputZoneName + ".day"], zones[ds[j].outputZoneName + ".month"],
                                           zones[ds[j].outputZoneName + ".year"], coerce)))
      && forall k :: k in r ==> !NotListed(IdentityFields(keys), k)
  {
    var os, ds := IdentityOutputs(keys), IdentityDates(keys);
    var fields := IdentityFields(keys);
    assert DistinctKeys(os) by {
      forall i, j | 0 <= i < j < |os| ensures os[i].key != os[j].key {
        assert os[i] == fields[i] && os[j] == fields[j];
      }
    }
    assert DistinctKeys(ds) by {
      forall i, j | 0 <= i < j < |ds| ensures ds[i].key != ds[j].key {
        assert ds[i] == fields[|os| + i] && ds[j] == fields[|os| + j];
      }
    }
    var m := ReadEach(map[], os, zones, coerce);
    ReadEachFields(map[], os, zones, coerce);
    ReadEachDateFields(m, ds, zones, coerce);
    var r := IdentityResult(zones, keys, coerce);
    forall j | 0 <= j < |os| ensures Agree(r, m, os[j].key) {
      forall i | 0 <= i < |ds| ensures ds[i].key != os[j].key {
        assert os[j] == fields[j] && ds[i] == fields[|os| + i];
      }
      assert NotListed(ds, os[j].key);
    }
    forall j | 0 <= j < |ds| ensures ds[j].key !in m {
      forall i | 0 <= i < |os| ensures os[i].key != ds[j].key {
        assert os[i] == fields[i] && ds[j] == fields[|os| + j];
      }
      assert NotListed(os, ds[j].key);
      assert Agree(m, map[], ds[j].key);
    }
    forall k | k in r ensures !NotListed(fields, k) {
      if !NotListed(ds, k) {
        var i :| 0 <= i < |ds| && ds[i].key == k;
        assert fields[|os| + i] == ds[i];
      } else {
        assert Agree(r, m, k);
        assert !NotListed(os, k);
        var i :| 0 <= i < |os| && os[i].key == k;
        assert fields[i] == os[i];
      }
    }
  }

  /** The identity address zone is declared but never read: changing it changes nothing. */
  lemma IdentityIgnoresAddress(zones: Zones, v: Variant, keys: ResultKeys, coerce: Coercion)
    ensures IdentityResult(zones[OUTPUT_ZONE_IDENTITY_ADDRESS := v], keys, coerce) == IdentityResult(zones, keys, coerce)
  {
    var zones' := zones[OUTPUT_ZONE_IDENTITY_ADDRESS := v];
    var os, ds := IdentityOutputs(keys), IdentityDates(keys);
    forall j | 0 <= j < |os| ensures os[j].outputZoneName != OUTPUT_ZONE_IDENTITY_ADDRESS {
      assert |os[j].outputZoneName| != |OUTPUT_ZONE_IDENTITY_ADDRESS|;
    }
    forall j | 0 <= j < |ds|
      ensures ds[j].outputZoneName + ".day" != OUTPUT_ZONE_IDENTITY_ADDRESS
      ensures ds[j].outputZoneName + ".month" != OUTPUT_ZONE_IDENTITY_ADDRESS
      ensures ds[j].outputZoneName + ".year" != OUTPUT_ZONE_IDENTITY_ADDRESS
    {
      assert |ds[j].outputZoneName| > |OUTPUT_ZONE_IDENTITY_ADDRESS|;
    }
    ReadEachIgnores(map[], os, zones, OUTPUT_ZONE_IDENTITY_ADDRESS, v, coerce);
    ReadEachDateIgnores(ReadEach(map[], os, zones, coerce), ds, zones, OUTPUT_ZONE_IDENTITY_ADDRESS, v, coerce);
  }

  lemma {:induction false} ReadEachIgnores(m: map<string, string>, os: seq<A2iaOutput>, zones: Zones, path: string, v: Variant, coerce: Coercion)
    requires forall j :: 0 <= j < |os| ==> os[j].outputZoneName != path
    ensures ReadEach(m, os, zones[path := v], coerce) == ReadEach(m, os, zones, coerce)
    decreases |os|
  {
    if os != [] {
      ReadEachIgnores(m, os[..|os| - 1], zones, path, v, coerce);
    }
  }

  lemma {:induction false} ReadEachDateIgnores(m: map<string, string>, os: seq<A2iaOutput>, zones: Zones, path: string, v: Variant, coerce: Coercion)
    requires forall j :: 0 <= j < |os| ==>
      os[j].outputZoneName + ".day" != path && os[j].outputZoneName + ".month" != path && os[j].outputZoneName + ".year" != path
    ensures ReadEachDate(m, os, zones[path := v], coerce) == ReadEachDate(m, os, zones, coerce)
    decreases |os|
  {
    if os != [] {
      ReadEachDateIgnores(m, os[..|os| - 1], zones, path, v, coerce);
    }
  }
}
