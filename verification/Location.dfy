/** Printing a geographic location as "city/region/country" and parsing it back. */
module Location {
  import opened Basics
  import opened Text

  datatype Profile = Profile(city: Option<string>, region: Option<string>, country: Option<string>)

  function ParsePart(parts: seq<string>, i: nat): Option<string> {
    if i >= |parts| || parts[i] == "" || parts[i] == "Unknown" then None else Some(parts[i])
  }

  function Parse(s: string): Profile {
    var parts := Split(s, '/');
    Profile(ParsePart(parts, 0), ParsePart(parts, 1), ParsePart(parts, 2))
  }

  function PrintPart(p: Option<string>): string {
    if p.Some? then p.value else "Unknown"
  }

  function Print(l: Profile): string {
    Join([PrintPart(l.city), PrintPart(l.region), PrintPart(l.country)], '/')
  }

  /** Whatever string of parts between slashes: the first three count, as far as they are there and say something. */
  lemma ParseReadsParts(parts: seq<string>)
    requires parts != [] && AllFree(parts, '/')
    ensures var l := Parse(Join(parts, '/'));
            && l.city == (if parts[0] in {"", "Unknown"} then None else Some(parts[0]))
            && l.region == (if |parts| < 2 || parts[1] in {"", "Unknown"} then None else Some(parts[1]))
            && l.country == (if |parts| < 3 || parts[2] in {"", "Unknown"} then None else Some(parts[2]))
  {
    SplitJoin(parts, '/');
  }

  /** Every string is made of such parts. */
  lemma {:induction false} JoinSplit(s: string)
    ensures Join(Split(s, '/'), '/') == s
  {
    if s == "" {
    } else {
      var rest := Split(s[1..], '/');
      JoinSplit(s[1..]);
      assert s == [s[0]] + s[1..];
      if s[0] == '/' {
        assert ([""] + rest)[1..] == rest;
      } else {
        assert ([[s[0]] + rest[0]] + rest[1..])[1..] == rest[1..];
      }
    }
  }

  lemma PrintsParts(l: Profile)
    ensures Print(l) == (if l.city.Some? then l.city.value else "Unknown")
                        + "/" + (if l.region.Some? then l.region.value else "Unknown")
                        + "/" + (if l.country.Some? then l.country.value else "Unknown")
  {
    hide Join;
    JoinThree(PrintPart(l.city), PrintPart(l.region), PrintPart(l.country), '/');
  }

  /** A component that survives: present ones are slash-free, not empty and not the word for a missing one. */
  predicate Plain(p: Option<string>) {
    p.Some? ==> p.value != "" && p.value != "Unknown" && Free(p.value, '/')
  }

  predicate PlainProfile(l: Profile) {
    Plain(l.city) && Plain(l.region) && Plain(l.country)
  }

  lemma ParsedIsPlain(s: string)
    ensures PlainProfile(Parse(s))
  {
  }

  lemma PlainRoundTrip(l: Profile)
    requires PlainProfile(l)
    ensures Parse(Print(l)) == l
  {
    SplitJoin([PrintPart(l.city), PrintPart(l.region), PrintPart(l.country)], '/');
  }

  /** Parsing undoes printing for exactly the profiles made of plain components. */
  lemma RoundTripExactly(l: Profile)
    ensures Parse(Print(l)) == l <==> PlainProfile(l)
  {
    if PlainProfile(l) {
      PlainRoundTrip(l);
    } else {
      ParsedIsPlain(Print(l));
    }
  }

  /** One parse normalises: parsing the print of a parsed string changes nothing more. */
  lemma ParseIsStable(s: string)
    ensures Parse(Print(Parse(s))) == Parse(s)
  {
    ParsedIsPlain(s);
    PlainRoundTrip(Parse(s));
  }
}
