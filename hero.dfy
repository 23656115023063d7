/**
 * The landing section's name handling: the full name is split on its first
 * space into a first name and the rest, and the rest gets its own line only
 * when it is non-empty. Also the section's other conditional pieces.
 */
module Hero {
  import opened Common
  import opened JsStrings

  /** The section's properties; optional ones are absent or present. */
  datatype HeroProps = HeroProps(
    name: string,
    description: string,
    primaryButtonText: string,
    secondaryButtonText: string,
    demoLinkText: Option<string>,
    demoLinkHref: Option<string>,
    calLink: Option<string>,
    avatarUrl: Option<string>,
    linkedinUrl: Option<string>)

  datatype NameParts = NameParts(firstName: string, lastName: string)

  /** A button, wrapped in a link when it has a target. */
  datatype Button = Button(text: string, href: Option<string>)

  datatype Link = Link(text: string, href: string)

  /** What the section shows, leaving out layout and styling. */
  datatype HeroView = HeroView(
    firstNameText: string,
    lastNameLine: Option<string>,
    description: string,
    primary: Button,
    secondary: Button,
    demoLink: Option<Link>,
    avatarUrl: Option<string>)

  /** JavaScript truthiness of an optional string: present and non-empty. */
  predicate Truthy(s: Option<string>) {
    s.Some? && s.value != ""
  }

  /**
   * `name.split(' ')`, then the first piece and the remaining pieces joined
   * with single spaces. The first name is the text before the first space;
   * the last name is everything after it, inner spaces included.
   */
  function SplitName(name: string): (r: NameParts)
    ensures ' ' !in r.firstName
    ensures r.firstName == name[..FirstSpace(name)]
    ensures ' ' !in name ==> r == NameParts(name, "")
    ensures ' ' in name ==> r.firstName + " " + r.lastName == name
  {
    var parts := Split(name);
    var k := FirstSpace(name);
    if k < |name| then
      JoinSplit(name[k + 1..]);
      assert parts[1..] == Split(name[k + 1..]);
      assert name == name[..k] + " " + name[k + 1..];
      NameParts(parts[0], Join(parts[1..]))
    else
      NameParts(parts[0], Join(parts[1..]))
  }

  /** A first name without spaces, a space and any rest split back into exactly those two parts. */
  lemma SplitNameRoundTrip(first: string, last: string)
    requires ' ' !in first
    ensures SplitName(first + " " + last) == NameParts(first, last)
  {
    SplitAfterWord(first, last);
    JoinSplit(last);
  }

  /** Rendering: the conditional pieces of the section. */
  function Render(props: HeroProps): (v: HeroView)
    ensures v.firstNameText == props.name[..FirstSpace(props.name)]
    ensures v.lastNameLine.Some? <==> FirstSpace(props.name) + 1 < |props.name|
    ensures v.lastNameLine.Some? ==> v.firstNameText + " " + v.lastNameLine.value == props.name
    ensures v.demoLink.Some? <==> Truthy(props.demoLinkText) && Truthy(props.demoLinkHref)
    ensures v.demoLink.Some? ==> v.demoLink.value == Link(props.demoLinkText.value, props.demoLinkHref.value)
    ensures v.primary.href.Some? <==> Truthy(props.calLink)
    ensures v.secondary.href.Some? <==> Truthy(props.linkedinUrl)
    ensures v.avatarUrl.Some? <==> Truthy(props.avatarUrl)
    ensures v.primary.href.Some? ==> v.primary.href == props.calLink
    ensures v.secondary.href.Some? ==> v.secondary.href == props.linkedinUrl
    ensures v.avatarUrl.Some? ==> v.avatarUrl == props.avatarUrl
    ensures v.primary.text == props.primaryButtonText && v.secondary.text == props.secondaryButtonText
    ensures v.description == props.description
  {
    var parts := SplitName(props.name);
    HeroView(
      parts.firstName,
      if parts.lastName != "" then Some(parts.lastName) else None,
      props.description,
      Button(props.primaryButtonText, if Truthy(props.calLink) then props.calLink else None),
      Button(props.secondaryButtonText, if Truthy(props.linkedinUrl) then props.linkedinUrl else None),
      if Truthy(props.demoLinkText) && Truthy(props.demoLinkHref)
      then Some(Link(props.demoLinkText.value, props.demoLinkHref.value)) else None,
      if Truthy(props.avatarUrl) then props.avatarUrl else None)
  }

  /** A name whose only space is its last character ("Ada ") shows the first name and no second line. */
  lemma TrailingSpaceShowsOneLine(props: HeroProps, first: string)
    requires ' ' !in first
    requires props.name == first + " "
    ensures Render(props).firstNameText == first
    ensures Render(props).lastNameLine == None
  {
    SplitNameRoundTrip(first, "");
  }
}
