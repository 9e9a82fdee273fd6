/** `extraer_ubicacion`: city and state code taken from the comma-separated shipping address. */
module Location {
  import opened PyStr

  /** The fallback label for both fields when the address is too short. */
  const Unknown: string := "Desconocido"

  /** The `'Ciudad'` and `'Estado'` columns of one row. */
  datatype Place = Place(city: string, state: string)

  /** The `k`-th comma-separated segment of an address (`str(direccion).split(',')[k]`). */
  function Segment(address: string, k: nat): string
    requires k <= Count(address, ',')
  {
    Split(address, ',')[k]
  }

  /** `extraer_ubicacion(direccion)`. With fewer than three segments both fields are the fallback;
      otherwise the city is segment 1 stripped and the state is the first space-separated token
      of segment 2 stripped. The fallback of the inner test can never be chosen, because splitting
      always yields at least one piece: an all-blank segment 2 gives the empty state. */
  function ExtractLocation(address: string): (p: Place)
    ensures Count(address, ',') < 2 ==> p == Place(Unknown, Unknown)
    ensures Count(address, ',') >= 2 ==> p.city == Strip(Segment(address, 1))
    ensures Count(address, ',') >= 2 ==>
              && ',' !in p.city && ',' !in p.state && ' ' !in p.state
              && (|p.city| == 0 || (!IsSpace(p.city[0]) && !IsSpace(p.city[|p.city| - 1])))
    ensures Count(address, ',') >= 2 ==>
              var seg := Strip(Segment(address, 2));
              && |p.state| <= |seg| && p.state == seg[..|p.state|]
              && (|p.state| == |seg| || seg[|p.state|] == ' ')
  {
    var partes := Split(address, ',');
    if |partes| >= 3 then
      var ciudad := Strip(partes[1]);
      var estadoZip := Split(Strip(partes[2]), ' ');
      StripNoSeparator(partes[1], ',');
      StripNoSeparator(partes[2], ',');
      SplitFirstToken(Strip(partes[2]), ' ');
      var estado := if |estadoZip| > 0 then estadoZip[0] else Unknown;
      Place(ciudad, estado)
    else
      Place(Unknown, Unknown)
  }

  /** Stripping never introduces a character that was not there. */
  lemma StripNoSeparator(s: string, c: char)
    requires c !in s
    ensures c !in Strip(s)
  {
    var a := LeadingSpace(s);
    assert Strip(s) == s[a..a + |Strip(s)|];
  }

  /** The first piece of a split is the longest separator-free prefix. */
  lemma {:induction false} SplitFirstToken(s: string, sep: char)
    ensures |Split(s, sep)[0]| <= |s|
    ensures Split(s, sep)[0] == s[..|Split(s, sep)[0]|]
    ensures |Split(s, sep)[0]| == |s| || s[|Split(s, sep)[0]|] == sep
  {
    if |s| > 0 && s[0] != sep {
      SplitFirstToken(s[1..], sep);
    }
  }

  /** An address whose segment 2 is blank yields the empty state code, not the fallback. */
  lemma BlankStateSegment(address: string)
    requires Count(address, ',') >= 2
    requires forall i :: 0 <= i < |Segment(address, 2)| ==> IsSpace(Segment(address, 2)[i])
    ensures ExtractLocation(address).state == ""
  {
  }

  /** An address `street, city, rest` whose segments hold no commas splits into exactly those three. */
  lemma ThreeSegments(street: string, city: string, rest: string)
    requires ',' !in street && ',' !in city && ',' !in rest
    ensures Split(street + [','] + city + [','] + rest, ',') == [street, city, rest]
  {
    SplitNoSeparator(street, ',');
    SplitNoSeparator(city, ',');
    SplitNoSeparator(rest, ',');
    SplitConcat(city, ',', rest);
    assert street + [','] + city + [','] + rest == street + [','] + (city + [','] + rest);
    SplitConcat(street, ',', city + [','] + rest);
  }

  /** `state zip` with no spaces inside either part splits into the two. */
  lemma TwoTokens(state: string, zip: string)
    requires ' ' !in state && ' ' !in zip
    ensures Split(state + [' '] + zip, ' ') == [state, zip]
  {
    SplitNoSeparator(state, ' ');
    SplitNoSeparator(zip, ' ');
    SplitConcat(state, ' ', zip);
  }

  /** A three-segment address decomposes into its stripped middle segment and the first token
      of its stripped last segment. */
  lemma ThreeSegmentPlace(street: string, city: string, rest: string)
    requires ',' !in street && ',' !in city && ',' !in rest
    ensures ExtractLocation(street + [','] + city + [','] + rest)
            == Place(Strip(city), Split(Strip(rest), ' ')[0])
  {
    ThreeSegments(street, city, rest);
  }

  /** The worked example of a well-formed address: street, city, state and ZIP code. */
  lemma ExampleAddress()
    ensures ExtractLocation("136 Church St, San Francisco, CA 94016") == Place("San Francisco", "CA")
  {
    var street, city, rest := "136 Church St", " San Francisco", " CA 94016";
    assert "136 Church St, San Francisco, CA 94016" == street + [','] + city + [','] + rest;
    ThreeSegmentPlace(street, city, rest);
    ExampleCity();
    ExampleState();
  }

  lemma ExampleCity()
    ensures Strip(" San Francisco") == "San Francisco"
  {
    StripAround(" San Francisco", 1, 14);
  }

  lemma ExampleState()
    ensures Split(Strip(" CA 94016"), ' ')[0] == "CA"
  {
    ExampleStateSegment();
    TwoTokens("CA", "94016");
  }

  lemma ExampleStateSegment()
    ensures Strip(" CA 94016") == "CA" + [' '] + "94016"
  {
    StripAround(" CA 94016", 1, 9);
  }
}
