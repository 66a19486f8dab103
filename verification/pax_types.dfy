/** The `PaxType` enumeration and the code table that `EnumExtensions.GetCode`
    and `EnumExtensions.FromCode` read from its `[Description]` attributes. */
module PaxTypes {
  import opened Wrappers

  datatype PaxType = Adult | Child

  /** The enum's public static fields, in declaration order. */
  const Members: seq<PaxType> := [Adult, Child]

  /** The text of a member's `[Description]` attribute, if it has one. */
  function Description(v: PaxType): Option<string> {
    match v
    case Adult => Some("ADT")
    case Child => Some("CHD")
  }

  /** `value.ToString()`: the member's name. */
  function Name(v: PaxType): string {
    match v
    case Adult => "Adult"
    case Child => "Child"
  }

  /** `GetCode`: the Description text, or the member name when the member
      carries no Description. */
  function GetCode(v: PaxType): (code: string)
    ensures Description(v).Some? ==> code == Description(v).value
    ensures Description(v).None? ==> code == Name(v)
  {
    Description(v).GetOr(Name(v))
  }

  /** The scan over `fields`: the first member whose Description is exactly
      `code`. */
  function FromCodeIn(fields: seq<PaxType>, code: string): (r: Option<PaxType>)
    ensures r.Some? ==> r.value in fields && Description(r.value) == Some(code)
    ensures r.None? ==> forall i | 0 <= i < |fields| :: Description(fields[i]) != Some(code)
  {
    if |fields| == 0 then None
    else if Description(fields[0]) == Some(code) then Some(fields[0])
    else FromCodeIn(fields[1..], code)
  }

  /** `FromCode<PaxType>`: the member whose Description equals `code` under
      exact (case-sensitive) comparison, or null. */
  function FromCode(code: string): (r: Option<PaxType>)
    ensures r.Some? ==> Description(r.value) == Some(code)
    ensures r.None? ==> forall v: PaxType :: Description(v) != Some(code)
  {
    assert Members[0] == Adult && Members[1] == Child;
    FromCodeIn(Members, code)
  }

  /** The two wire codes. */
  lemma GetCodeTable()
    ensures GetCode(Adult) == "ADT" && GetCode(Child) == "CHD"
  {
  }

  /** Decoding undoes encoding, for every member. */
  lemma FromCodeGetCode(v: PaxType)
    ensures FromCode(GetCode(v)) == Some(v)
  {
  }

  /** Encoding undoes decoding: whatever FromCode accepts is the code of the
      member it returns. */
  lemma GetCodeFromCode(code: string)
    requires FromCode(code).Some?
    ensures GetCode(FromCode(code).value) == code
  {
  }

  /** Exactly "ADT" and "CHD" decode; this is the set of passenger types the
      request validators allow. Case variants and member names do not. */
  lemma FromCodeAcceptsExactlyTheCodes(code: string)
    ensures FromCode(code).Some? <==> code == "ADT" || code == "CHD"
    ensures FromCode("adt") == None && FromCode("Adult") == None && FromCode("chd") == None
  {
    if code == "ADT" {
      assert Description(Adult) == Some(code);
    } else if code == "CHD" {
      assert Description(Child) == Some(code);
    }
  }
}
