/** The schema-driven decoder of `OcrResultUtils`: it reads the engine's output zones and builds
    the result map of one document type. */
module OcrResultUtils {
  import opened Wrappers
  import opened Text
  import opened Jacob
  import opened OcrConstants
  import opened OcrException
  import opened OcrProperties

  /** The engine's result for one request: the variant at each output-zone path. A path with no
      entry is one for which the engine's `ObjectProperty` call returned null. */
  type Zones = map<string, Variant>

  /** One field to read: the result key, the output-zone path and the declared type. */
  datatype A2iaOutput = A2iaOutput(key: string, outputZoneName: string, outputZoneType: VariantType)

  /** The `HashMap<String, String>` a schema method creates and its readers `put` into. */
  class ResultMap {
    var entries: map<string, string>

    constructor ()
      ensures entries == map[]
    {
      entries := map[];
    }

    method Put(key: string, value: string)
      modifies this
      ensures entries == old(entries)[key := value]
    {
      entries := entries[key := value];
    }
  }

  // ---------------------------------------------------------------------------------------
  // What each reader leaves in the map

  /** A simple field is written, coerced to its declared type, exactly when its zone is present. */
  function ReadSimple(m: map<string, string>, o: A2iaOutput, zones: Zones, coerce: Coercion): map<string, string> {
    if o.outputZoneName in zones then m[o.key := coerce(zones[o.outputZoneName], o.outputZoneType)] else m
  }

  /** The simple outputs of a list, read in list order. */
  function ReadEach(m: map<string, string>, os: seq<A2iaOutput>, zones: Zones, coerce: Coercion): map<string, string>
    decreases |os|
  {
    if os == [] then m
    else ReadSimple(ReadEach(m, os[..|os| - 1], zones, coerce), os[|os| - 1], zones, coerce)
  }

  /** The text of a date: day, month and year, each converted to an integer, joined by "/". */
  function DateText(day: Variant, month: Variant, year: Variant, coerce: Coercion): string {
    coerce(day, VariantInt) + "/" + coerce(month, VariantInt) + "/" + coerce(year, VariantInt)
  }

  /** A date field is written only when its `.day`, `.month` and `.year` sub-zones are all present. */
  function ReadDate(m: map<string, string>, o: A2iaOutput, zones: Zones, coerce: Coercion): map<string, string> {
    var day, month, year := o.outputZoneName + ".day", o.outputZoneName + ".month", o.outputZoneName + ".year";
    if day in zones && month in zones && year in zones then
      m[o.key := DateText(zones[day], zones[month], zones[year], coerce)]
    else m
  }

  /** The date outputs of a list, read in list order. */
  function ReadEachDate(m: map<string, string>, os: seq<A2iaOutput>, zones: Zones, coerce: Coercion): map<string, string>
    decreases |os|
  {
    if os == [] then m
    else ReadDate(ReadEachDate(m, os[..|os| - 1], zones, coerce), os[|os| - 1], zones, coerce)
  }

  /** The line types of an address block that have a result key of their own. */
  datatype AddressTag = Name | Destination | PhoneNum | CityZip

  function TagText(t: AddressTag): string {
    match t
    case Name => OUTPUT_ZONE_ADDRESS_NAME
    case Destination => OUTPUT_ZONE_ADDRESS_DESTINATION
    case PhoneNum => OUTPUT_ZONE_ADDRESS_PHONE_NUMBER
    case CityZip => OUTPUT_ZONE_ADDRESS_CITY_ZIP
  }

  /** The configured result key of each line type. */
  function SubKey(keys: ResultKeys, t: AddressTag): string {
    match t
    case Name => keys.addressName
    case Destination => keys.addressDestination
    case PhoneNum => keys.addressPhone
    case CityZip => keys.addressCityZip
  }

  /** The tag a line's type text is recognised as: the first of Name, Destination, PhoneNum and
      CityZip it equals ignoring case. */
  function TagOf(typeText: string): (t: Option<AddressTag>)
    ensures t.Some? ==> EqualsIgnoreCase(TagText(t.value), typeText)
    ensures t.None? ==> forall u: AddressTag :: !EqualsIgnoreCase(TagText(u), typeText)
  {
    if EqualsIgnoreCase(OUTPUT_ZONE_ADDRESS_NAME, typeText) then Some(Name)
    else if EqualsIgnoreCase(OUTPUT_ZONE_ADDRESS_DESTINATION, typeText) then Some(Destination)
    else if EqualsIgnoreCase(OUTPUT_ZONE_ADDRESS_PHONE_NUMBER, typeText) then Some(PhoneNum)
    else if EqualsIgnoreCase(OUTPUT_ZONE_ADDRESS_CITY_ZIP, typeText) then Some(CityZip)
    else None
  }

  /** The path of a property of line `i` of a block: `zone[i].field`. */
  function LinePath(zone: string, i: int, field: string): string {
    zone + "[" + IntToString(i) + "]." + field
  }

  /** The text of lines read so far, and the map with the sub-keys written so far. */
  datatype Block = Block(text: string, entries: map<string, string>)

  /** Reading line `i`: an absent line is skipped; a present one adds its text and a space to the
      block, and its text under the sub-key of its type tag, if the tag has one. A present line with
      no type makes `variantType.toString()` throw. */
  function ReadLine(b: Block, zone: string, i: int, zones: Zones, coerce: Coercion, keys: ResultKeys): Result<Block, OcrError> {
    var wreco := LinePath(zone, i, "wreco");
    if wreco !in zones then Ok(b)
    else
      var line := ToText(coerce, zones[wreco]);
      var typePath := LinePath(zone, i, "type");
      if typePath !in zones then Err(NullReference)
      else
        var entries :=
          match TagOf(ToText(coerce, zones[typePath]))
          case Some(t) => b.entries[SubKey(keys, t) := line]
          case None => b.entries;
        Ok(Block(b.text + line + " ", entries))
  }

  /** Lines 1..n of a block, read in order, starting from the map `m`. */
  function ReadLines(m: map<string, string>, zone: string, n: nat, zones: Zones, coerce: Coercion, keys: ResultKeys): Result<Block, OcrError>
    decreases n
  {
    if n == 0 then Ok(Block("", m))
    else
      match ReadLines(m, zone, n - 1, zones, coerce, keys)
      case Err(e) => Err(e)
      case Ok(b) => ReadLine(b, zone, n, zones, coerce, keys)
  }

  /** A multi-line block is read only when its line count is present, not null and positive; the
      block key then receives the text of every present line, each followed by one space. */
  function ReadMultiLines(m: map<string, string>, o: A2iaOutput, zones: Zones, coerce: Coercion, keys: ResultKeys): Result<map<string, string>, OcrError> {
    var zone := o.outputZoneName;
    if zone !in zones || IsNull(zones[zone]) then Ok(m)
    else
      match GetInt(zones[zone])
      case None => Err(NotAnInt(zone))
      case Some(count) =>
        if count <= 0 then Ok(m)
        else
          match ReadLines(m, zone, count, zones, coerce, keys)
          case Err(e) => Err(e)
          case Ok(b) => Ok(b.entries[o.key := b.text])
  }

  // ---------------------------------------------------------------------------------------
  // The three schemas

  function RibOutputs(keys: ResultKeys): seq<A2iaOutput> {
    [ A2iaOutput(keys.ribResult, OUTPUT_ZONE_RIB, VariantString),
      A2iaOutput(keys.ribCodeBanque, OUTPUT_ZONE_RIB_CODE_BANQUE, VariantString),
      A2iaOutput(keys.ribCodeGuichet, OUTPUT_ZONE_RIB_CODE_GUICHET, VariantString),
      A2iaOutput(keys.ribNumeroCompte, OUTPUT_ZONE_RIB_N_COMPTE, VariantString),
      A2iaOutput(keys.ribCle, OUTPUT_ZONE_RIB_CLE, VariantString),
      A2iaOutput(keys.ribIban, OUTPUT_ZONE_RIB_IBAN, VariantString),
      A2iaOutput(keys.ribBic, OUTPUT_ZONE_RIB_BIC, VariantString) ]
  }

  function RibAddress(keys: ResultKeys): A2iaOutput {
    A2iaOutput(keys.ribAddress, OUTPUT_ZONE_RIB_ADDRESS, VariantInt)
  }

  function TaxAssessmentAddress(keys: ResultKeys): A2iaOutput {
    A2iaOutput(keys.taxAddress, OUTPUT_ZONE_TAX_ASSESSMENT_ADDRESS, VariantInt)
  }

  function TaxAssessmentDate(keys: ResultKeys): A2iaOutput {
    A2iaOutput(keys.taxDate, OUTPUT_ZONE_TAX_ASSESSMENT_ESTABLISHED_DATE, VariantString)
  }

  function TaxAssessmentAmount(keys: ResultKeys): A2iaOutput {
    A2iaOutput(keys.taxAmount, OUTPUT_ZONE_TAX_ASSESSMENT_TAX_AMOUNT, VariantFloat)
  }

  function IdentityOutputs(keys: ResultKeys): seq<A2iaOutput> {
    [ A2iaOutput(keys.identityFirstName, OUTPUT_ZONE_IDENTITY_FIRST_NAME, VariantString),
      A2iaOutput(keys.identityLastName, OUTPUT_ZONE_IDENTITY_LAST_NAME, VariantString),
      A2iaOutput(keys.identityBirthPlace, OUTPUT_ZONE_IDENTITY_BIRTH_PLACE, VariantString),
      A2iaOutput(keys.identityGender, OUTPUT_ZONE_IDENTITY_GENDER, VariantString),
      A2iaOutput(keys.identityNationality, OUTPUT_ZONE_IDENTITY_NATIONALITY, VariantString),
      A2iaOutput(keys.identityIdNumber, OUTPUT_ZONE_IDENTITY_ID_NUMBER, VariantInt) ]
  }

  function IdentityDates(keys: ResultKeys): seq<A2iaOutput> {
    [ A2iaOutput(keys.identityBirthDate, OUTPUT_ZONE_IDENTITY_BIRTH_DATE, VariantString),
      A2iaOutput(keys.identityExpirationDate, OUTPUT_ZONE_IDENTITY_EXPIRATION_DATE, VariantString),
      A2iaOutput(keys.identityIssueDate, OUTPUT_ZONE_IDENTITY_ISSUE_DATE, VariantString) ]
  }

  /** RIB: the seven string fields, then the address block, into a fresh map. */
  function RibResult(zones: Zones, keys: ResultKeys, coerce: Coercion): Result<map<string, string>, OcrError> {
    ReadMultiLines(ReadEach(map[], RibOutputs(keys), zones, coerce), RibAddress(keys), zones, coerce, keys)
  }

  /** Tax assessment: the address block, then the established date, then the tax amount as a float. */
  function TaxAssessmentResult(zones: Zones, keys: ResultKeys, coerce: Coercion): Result<map<string, string>, OcrError> {
    match ReadMultiLines(map[], TaxAssessmentAddress(keys), zones, coerce, keys)
    case Err(e) => Err(e)
    case Ok(m) =>
      Ok(ReadSimple(ReadDate(m, TaxAssessmentDate(keys), zones, coerce), TaxAssessmentAmount(keys), zones, coerce))
  }

  /** Identity: five string fields and the number as an integer, then the three dates. */
  function IdentityResult(zones: Zones, keys: ResultKeys, coerce: Coercion): map<string, string> {
    ReadEachDate(ReadEach(map[], IdentityOutputs(keys), zones, coerce), IdentityDates(keys), zones, coerce)
  }

  /** The decoded map of a document type; `None` (Java's null) for a type that is none of the three. */
  function OcrResults(documentType: string, types: DocumentTypes, zones: Zones, keys: ResultKeys, coerce: Coercion): Result<Option<map<string, string>>, OcrError> {
    if IsDocumentType(documentType, types.rib) then
      match RibResult(zones, keys, coerce) case Err(e) => Err(e) case Ok(m) => Ok(Some(m))
    else if IsDocumentType(documentType, types.tax) then
      match TaxAssessmentResult(zones, keys, coerce) case Err(e) => Err(e) case Ok(m) => Ok(Some(m))
    else if IsDocumentType(documentType, types.identity) then
      Ok(Some(IdentityResult(zones, keys, coerce)))
    else Ok(None)
  }

  /** Once a line fails, reading further lines fails the same way. */
  lemma {:induction false} ReadLinesFailureSticks(m: map<string, string>, zone: string, k: nat, n: nat, zones: Zones, coerce: Coercion, keys: ResultKeys)
    requires k <= n && ReadLines(m, zone, k, zones, coerce, keys).Err?
    ensures ReadLines(m, zone, n, zones, coerce, keys) == ReadLines(m, zone, k, zones, coerce, keys)
    decreases n
  {
    if k < n {
      ReadLinesFailureSticks(m, zone, k, n - 1, zones, coerce, keys);
    }
  }

  // ---------------------------------------------------------------------------------------
  // The readers and the schema methods

  method GetA2iaOutputResult(o: A2iaOutput, zones: Zones, coerce: Coercion, mapResult: ResultMap)
    modifies mapResult
    ensures mapResult.entries == ReadSimple(old(mapResult.entries), o, zones, coerce)
  {
    if o.outputZoneName in zones {
      mapResult.Put(o.key, coerce(zones[o.outputZoneName], o.outputZoneType));
    }
  }

  method GetA2iaOutputResultDate(o: A2iaOutput, zones: Zones, coerce: Coercion, mapResult: ResultMap)
    modifies mapResult
    ensures mapResult.entries == ReadDate(old(mapResult.entries), o, zones, coerce)
  {
    var day, month, year := o.outputZoneName + ".day", o.outputZoneName + ".month", o.outputZoneName + ".year";
    if day in zones && month in zones && year in zones {
      var text := coerce(zones[day], VariantInt) + "/";
      text := text + coerce(zones[month], VariantInt) + "/";
      text := text + coerce(zones[year], VariantInt);
      mapResult.Put(o.key, text);
    }
  }

  method GetA2iaOutputResultMultiLines(o: A2iaOutput, zones: Zones, coerce: Coercion, keys: ResultKeys, mapResult: ResultMap)
    returns (outcome: Outcome<OcrError>)
    modifies mapResult
    ensures match ReadMultiLines(old(mapResult.entries), o, zones, coerce, keys)
            case Ok(m) => outcome == Pass && mapResult.entries == m
            case Err(e) => outcome == Fail(e)
  {
    ghost var m0 := mapResult.entries;
    var zone := o.outputZoneName;
    if zone in zones && !IsNull(zones[zone]) {
      var lines := zones[zone];
      if !lines.Int? {
        return Fail(NotAnInt(zone));
      }
      if lines.n > 0 {
        var sbAdresse := "";
        var i := 1;
        while i <= lines.n
          invariant 1 <= i <= lines.n + 1
          invariant ReadLines(m0, zone, i - 1, zones, coerce, keys) == Ok(Block(sbAdresse, mapResult.entries))
        {
          var wreco := LinePath(zone, i, "wreco");
          if wreco in zones {
            var line := ToText(coerce, zones[wreco]);
            sbAdresse := sbAdresse + line + " ";
            var typePath := LinePath(zone, i, "type");
            if typePath !in zones {
              ReadLinesFailureSticks(m0, zone, i, lines.n, zones, coerce, keys);
              return Fail(NullReference);
            }
            var typeText := ToText(coerce, zones[typePath]);
            if EqualsIgnoreCase(OUTPUT_ZONE_ADDRESS_NAME, typeText) {
              mapResult.Put(keys.addressName, line);
            } else if EqualsIgnoreCase(OUTPUT_ZONE_ADDRESS_DESTINATION, typeText) {
              mapResult.Put(keys.addressDestination, line);
            } else if EqualsIgnoreCase(OUTPUT_ZONE_ADDRESS_PHONE_NUMBER, typeText) {
              mapResult.Put(keys.addressPhone, line);
            } else if EqualsIgnoreCase(OUTPUT_ZONE_ADDRESS_CITY_ZIP, typeText) {
              mapResult.Put(keys.addressCityZip, line);
            }
          }
          i := i + 1;
        }
        mapResult.Put(o.key, sbAdresse);
      }
    }
    return Pass;
  }

  method GetRibResult(zones: Zones, keys: ResultKeys, coerce: Coercion) returns (r: Result<map<string, string>, OcrError>)
    ensures r == RibResult(zones, keys, coerce)
  {
    var mapOcrRibResult := new ResultMap();
    var listA2iaOutputRib := RibOutputs(keys);
    for i := 0 to |listA2iaOutputRib|
      invariant mapOcrRibResult.entries == ReadEach(map[], listA2iaOutputRib[..i], zones, coerce)
    {
      assert listA2iaOutputRib[..i + 1][..i] == listA2iaOutputRib[..i];
      GetA2iaOutputResult(listA2iaOutputRib[i], zones, coerce, mapOcrRibResult);
    }
    assert listA2iaOutputRib[..|listA2iaOutputRib|] == listA2iaOutputRib;
    var outcome := GetA2iaOutputResultMultiLines(RibAddress(keys), zones, coerce, keys, mapOcrRibResult);
    if outcome.Fail? {
      return Err(outcome.error);
    }
    return Ok(mapOcrRibResult.entries);
  }

  method GetTaxAssessmentResult(zones: Zones, keys: ResultKeys, coerce: Coercion) returns (r: Result<map<string, string>, OcrError>)
    ensures r == TaxAssessmentResult(zones, keys, coerce)
  {
    var mapOcrTaxResult := new ResultMap();
    var outcome := GetA2iaOutputResultMultiLines(TaxAssessmentAddress(keys), zones, coerce, keys, mapOcrTaxResult);
    if outcome.Fail? {
      return Err(outcome.error);
    }
    GetA2iaOutputResultDate(TaxAssessmentDate(keys), zones, coerce, mapOcrTaxResult);
    GetA2iaOutputResult(TaxAssessmentAmount(keys), zones, coerce, mapOcrTaxResult);
    return Ok(mapOcrTaxResult.entries);
  }

  method GetIdentityResult(zones: Zones, keys: ResultKeys, coerce: Coercion) returns (r: map<string, string>)
    ensures r == IdentityResult(zones, keys, coerce)
  {
    var mapOcrIdentityResult := new ResultMap();
    var listA2iaOutputIdentity := IdentityOutputs(keys);
    for i := 0 to |listA2iaOutputIdentity|
      invariant mapOcrIdentityResult.entries == ReadEach(map[], listA2iaOutputIdentity[..i], zones, coerce)
    {
      assert listA2iaOutputIdentity[..i + 1][..i] == listA2iaOutputIdentity[..i];
      GetA2iaOutputResult(listA2iaOutputIdentity[i], zones, coerce, mapOcrIdentityResult);
    }
    assert listA2iaOutputIdentity[..|listA2iaOutputIdentity|] == listA2iaOutputIdentity;
    ghost var afterSimple := mapOcrIdentityResult.entries;
    listA2iaOutputIdentity := [];
    listA2iaOutputIdentity := IdentityDates(keys);
    for i := 0 to |listA2iaOutputIdentity|
      invariant mapOcrIdentityResult.entries == ReadEachDate(afterSimple, listA2iaOutputIdentity[..i], zones, coerce)
    {
      assert listA2iaOutputIdentity[..i + 1][..i] == listA2iaOutputIdentity[..i];
      GetA2iaOutputResultDate(listA2iaOutputIdentity[i], zones, coerce, mapOcrIdentityResult);
    }
    assert listA2iaOutputIdentity[..|listA2iaOutputIdentity|] == listA2iaOutputIdentity;
    return mapOcrIdentityResult.entries;
  }

  /** `getOcrResults`: the first configured type the document type equals (ignoring case) picks
      the schema; any other type gives null. */
  method GetOcrResults(documentType: string, types: DocumentTypes, zones: Zones, keys: ResultKeys, coerce: Coercion)
    returns (r: Result<Option<map<string, string>>, OcrError>)
    ensures r == OcrResults(documentType, types, zones, keys, coerce)
    ensures r == Ok(None) <==>
      !IsDocumentType(documentType, types.rib) && !IsDocumentType(documentType, types.tax)
      && !IsDocumentType(documentType, types.identity)
  {
    if IsDocumentType(documentType, types.rib) {
      var rib := GetRibResult(zones, keys, coerce);
      return match rib case Err(e) => Err(e) case Ok(m) => Ok(Some(m));
    } else if IsDocumentType(documentType, types.tax) {
      var tax := GetTaxAssessmentResult(zones, keys, coerce);
      return match tax case Err(e) => Err(e) case Ok(m) => Ok(Some(m));
    } else if IsDocumentType(documentType, types.identity) {
      var identity := GetIdentityResult(zones, keys, coerce);
      return Ok(Some(identity));
    }
    return Ok(None);
  }
}
