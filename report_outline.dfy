/**
 * Reading a generated report back. The HTML report escapes nothing, so it can
 * be read back only when the texts placed in it contain no `<`; under that
 * condition the decoder below recovers, from the file text alone, the
 * heading, the timestamp, one section per host and one list item per port,
 * all in the order they were written.
 */
module ReportOutline {
  import opened Wrappers
  import opened ScanReport
  import opened ReportGenerator

  /** A host section as it reads in the file: the address and its item texts. */
  datatype Section = Section(ip: string, items: seq<string>)

  /** A report file as it reads: heading word, timestamp and host sections. */
  datatype Outline = Outline(title: string, generatedAt: string, sections: seq<Section>)

  /** Text that can be placed in the document and read back unambiguously. */
  predicate Plain(s: string)
  {
    '<' !in s
  }

  predicate PlainReport(report: Report)
  {
    forall h :: h in report.hosts ==>
      Plain(h.ip) && forall p :: p in h.ports ==> Plain(p.service) && Plain(p.state)
  }

  // ---------------------------------------------------------------------------
  // Expected reading

  function ItemTexts(ports: seq<PortEntry>): seq<string>
  {
    if ports == [] then [] else [ItemText(ports[0])] + ItemTexts(ports[1..])
  }

  function SectionsOf(hosts: seq<HostEntry>): seq<Section>
  {
    if hosts == [] then [] else [Section(hosts[0].ip, ItemTexts(hosts[0].ports))] + SectionsOf(hosts[1..])
  }

  // ---------------------------------------------------------------------------
  // Decoder

  /** `s` without the prefix `p`, if `s` starts with it. */
  function StripPrefix(p: string, s: string): (r: Option<string>)
    ensures r.Some? ==> |r.value| == |s| - |p| && s == p + r.value
  {
    if |p| <= |s| && s[..|p|] == p then Some(s[|p|..]) else None
  }

  /** Splits `s` before its first `<`: the text, and the rest from that `<` on. */
  function SplitText(s: string): (r: (string, string))
    ensures |r.1| <= |s|
  {
    if s == [] || s[0] == '<' then ([], s)
    else
      var tail := SplitText(s[1..]);
      ([s[0]] + tail.0, tail.1)
  }

  /** The list items up to and including `</ul>`, and what follows. */
  function ParseItems(s: string): (r: Option<(seq<string>, string)>)
    ensures r.Some? ==> |r.value.1| < |s|
    decreases |s|
  {
    match StripPrefix("</ul>", s)
    case Some(rest) => Some(([], rest))
    case None =>
      match StripPrefix("<li>", s)
      case None => None
      case Some(s1) =>
        var (text, s2) := SplitText(s1);
        match StripPrefix("</li>", s2)
        case None => None
        case Some(s3) =>
          match ParseItems(s3)
          case None => None
          case Some((items, s4)) => Some(([text] + items, s4))
  }

  /** The host sections up to the closing `</body></html>`. */
  function ParseSections(s: string): Option<seq<Section>>
    decreases |s|
  {
    if s == "</body></html>" then Some([])
    else
      match StripPrefix("<h2>Host: ", s)
      case None => None
      case Some(s1) =>
        var (ip, s2) := SplitText(s1);
        match StripPrefix("</h2>", s2)
        case None => None
        case Some(s3) =>
          match StripPrefix("<h3>Open Ports:</h3><ul>", s3)
          case None => None
          case Some(s4) =>
            match ParseItems(s4)
            case None => None
            case Some((items, s5)) =>
              match ParseSections(s5)
              case None => None
              case Some(sections) => Some([Section(ip, items)] + sections)
  }

  /** The heading word and timestamp, and what follows the timestamp's paragraph. */
  function ParseHeading(html: string): Option<(string, string, string)>
  {
    match StripPrefix("<html><body>", html)
    case None => None
    case Some(s0) =>
      match StripPrefix("<h1>", s0)
      case None => None
      case Some(s1) =>
        var (head, s2) := SplitText(s1);
        if |head| < 7 || head[|head| - 7..] != " Report" then None
        else
          match StripPrefix("</h1>", s2)
          case None => None
          case Some(s3) =>
            match StripPrefix("<p>Generated at: ", s3)
            case None => None
            case Some(s4) =>
              var (stamp, s5) := SplitText(s4);
              match StripPrefix("</p>", s5)
              case None => None
              case Some(s6) => Some((head[..|head| - 7], stamp, s6))
  }

  /** Reads a whole report file. */
  function ParseReport(html: string): Option<Outline>
  {
    match ParseHeading(html)
    case None => None
    case Some((title, stamp, rest)) =>
      match ParseSections(rest)
      case None => None
      case Some(sections) => Some(Outline(title, stamp, sections))
  }

  // ---------------------------------------------------------------------------
  // Round trip

  lemma StripPrefixOf(p: string, rest: string)
    ensures StripPrefix(p, p + rest) == Some(rest)
  {
  }

  lemma {:induction false} SplitTextOf(text: string, rest: string)
    requires Plain(text)
    requires rest == [] || rest[0] == '<'
    ensures SplitText(text + rest) == (text, rest)
  {
    if text != [] {
      var s := text + rest;
      assert s[0] == text[0] && text[0] != '<';
      assert s[1..] == text[1..] + rest;
      SplitTextOf(text[1..], rest);
      assert SplitText(s) == ([s[0]] + text[1..], rest);
      assert text == [text[0]] + text[1..];
    } else {
      assert text + rest == rest;
    }
  }

  lemma NatToStringPlain(n: nat)
    ensures Plain(NatToString(n))
  {
  }

  lemma ItemTextPlain(p: PortEntry)
    requires Plain(p.service) && Plain(p.state)
    ensures Plain(ItemText(p))
  {
    NatToStringPlain(p.port);
  }

  lemma RegroupItem(a: string, b: string, c: string, d: string, e: string, f: string)
    ensures a + b + c + d + e + f == a + (b + (c + (d + e + f)))
  {
  }

  lemma RegroupSection(a: string, b: string, c: string, d: string, e: string, f: string, g: string)
    ensures a + b + c + d + e + f + g == a + (b + (c + (d + (e + f + g))))
  {
  }

  lemma {:induction false} ItemsRoundTrip(ports: seq<PortEntry>, rest: string)
    requires forall p :: p in ports ==> Plain(p.service) && Plain(p.state)
    ensures ParseItems(Items(ports) + "</ul>" + rest) == Some((ItemTexts(ports), rest))
  {
    var s := Items(ports) + "</ul>" + rest;
    if ports == [] {
      assert s == "</ul>" + rest;
      StripPrefixOf("</ul>", rest);
    } else {
      var p := ports[0];
      var text := ItemText(p);
      ItemTextPlain(p);
      var tail := Items(ports[1..]) + "</ul>" + rest;
      assert s == "<li>" + (text + ("</li>" + tail)) by {
        assert Items(ports) == "<li>" + text + "</li>" + Items(ports[1..]);
        RegroupItem("<li>", text, "</li>", Items(ports[1..]), "</ul>", rest);
      }
      assert s[1] == 'l';
      StripPrefixOf("<li>", text + ("</li>" + tail));
      SplitTextOf(text, "</li>" + tail);
      StripPrefixOf("</li>", tail);
      ItemsRoundTrip(ports[1..], rest);
    }
  }

  /** One host section followed by further text reads as that host's section. */
  lemma SectionStep(h: HostEntry, tail: string)
    requires Plain(h.ip)
    requires forall p :: p in h.ports ==> Plain(p.service) && Plain(p.state)
    ensures var s := HostSection(h) + tail;
      var afterH3 := "<h3>Open Ports:</h3><ul>" + (Items(h.ports) + "</ul>" + tail);
      && s != "</body></html>"
      && StripPrefix("<h2>Host: ", s) == Some(h.ip + ("</h2>" + afterH3))
      && SplitText(h.ip + ("</h2>" + afterH3)) == (h.ip, "</h2>" + afterH3)
      && StripPrefix("</h2>", "</h2>" + afterH3) == Some(afterH3)
  {
    var afterUl := Items(h.ports) + "</ul>" + tail;
    var afterH3 := "<h3>Open Ports:</h3><ul>" + afterUl;
    var rest := "</h2>" + afterH3;
    var s := HostSection(h) + tail;
    assert s == "<h2>Host: " + (h.ip + rest) by {
      RegroupSection("<h2>Host: ", h.ip, "</h2>", "<h3>Open Ports:</h3><ul>", Items(h.ports), "</ul>", tail);
    }
    assert s[1] == 'h';
    StripPrefixOf("<h2>Host: ", h.ip + rest);
    SplitTextOf(h.ip, rest);
    StripPrefixOf("</h2>", afterH3);
  }

  lemma {:induction false} SectionsRoundTrip(hosts: seq<HostEntry>)
    requires PlainReport(Report(hosts))
    ensures ParseSections(Sections(hosts) + "</body></html>") == Some(SectionsOf(hosts))
  {
    var s := Sections(hosts) + "</body></html>";
    if hosts == [] {
      assert s == "</body></html>";
    } else {
      var h := hosts[0];
      var tail := Sections(hosts[1..]) + "</body></html>";
      assert s == HostSection(h) + tail by {
        Assoc(HostSection(h), Sections(hosts[1..]), "</body></html>");
      }
      SectionStep(h, tail);
      StripPrefixOf("<h3>Open Ports:</h3><ul>", Items(h.ports) + "</ul>" + tail);
      ItemsRoundTrip(h.ports, tail);
      assert PlainReport(Report(hosts[1..])) by {
        forall g | g in hosts[1..] ensures g in hosts { }
      }
      SectionsRoundTrip(hosts[1..]);
    }
  }

  /** The heading as the decoder consumes it, one written piece at a time. */
  function NestedHeading(title: string, timestamp: string, rest: string): string
  {
    "<html><body>" + ("<h1>" + ((title + " Report") + ("</h1>" + ("<p>Generated at: " + (timestamp + ("</p>" + rest))))))
  }

  lemma HeadingNested(reportType: string, timestamp: string, rest: string)
    ensures Heading(reportType, timestamp) + rest == NestedHeading(Capitalize(reportType), timestamp, rest)
  {
  }

  lemma ParseNestedHeading(title: string, timestamp: string, rest: string)
    requires Plain(title) && Plain(timestamp)
    ensures ParseHeading(NestedHeading(title, timestamp, rest)) == Some((title, timestamp, rest))
  {
    var s5 := "</p>" + rest;
    var s4 := timestamp + s5;
    var s3 := "<p>Generated at: " + s4;
    var s2 := "</h1>" + s3;
    var head := title + " Report";
    var s1 := head + s2;
    var s0 := "<h1>" + s1;
    StripPrefixOf("<html><body>", s0);
    StripPrefixOf("<h1>", s1);
    SplitTextOf(head, s2);
    assert head[|head| - 7..] == " Report" && head[..|head| - 7] == title;
    StripPrefixOf("</h1>", s3);
    StripPrefixOf("<p>Generated at: ", s4);
    SplitTextOf(timestamp, s5);
    StripPrefixOf("</p>", rest);
  }

  /** The heading reads back as the capitalized report type and the timestamp. */
  lemma HeadingRoundTrip(reportType: string, timestamp: string, rest: string)
    requires Plain(reportType) && Plain(timestamp)
    ensures ParseHeading(Heading(reportType, timestamp) + rest) == Some((Capitalize(reportType), timestamp, rest))
  {
    CapitalizeProperties(reportType);
    HeadingNested(reportType, timestamp, rest);
    ParseNestedHeading(Capitalize(reportType), timestamp, rest);
  }

  /**
   * A report file reads back as its capitalized type, its timestamp, and --
   * for the type "network" only -- one section per host of the report, in
   * report order, each with its address and one `port (service) - state`
   * item per port, in port order. Any other type has no host sections.
   */
  lemma ReportRoundTrip(report: Report, reportType: string, timestamp: string)
    requires Plain(reportType) && Plain(timestamp)
    requires reportType == "network" ==> PlainReport(report)
    ensures ParseReport(ReportHtml(report, reportType, timestamp)) ==
      Some(Outline(Capitalize(reportType), timestamp, if reportType == "network" then SectionsOf(report.hosts) else []))
  {
    var body := if reportType == "network" then Sections(report.hosts) else "";
    var rest := body + "</body></html>";
    assert ReportHtml(report, reportType, timestamp) == Heading(reportType, timestamp) + rest;
    HeadingRoundTrip(reportType, timestamp, rest);
    if reportType == "network" {
      SectionsRoundTrip(report.hosts);
    } else {
      assert rest == "</body></html>";
    }
  }
}
