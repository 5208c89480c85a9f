/**
 * `ReportGenerator.generate_html_report` (app.py): the report file name built
 * from the report type and a timestamp, and the HTML text the successive
 * writes put into that file. The clock reading is a parameter and the file
 * system is left out: the method returns the name and the text.
 */
module ReportGenerator {
  import opened ScanReport
  import opened Timestamp

  /** The path `reports/<type>_report_<timestamp>.html`. */
  function ReportFilename(reportType: string, timestamp: string): string
  {
    "reports/" + reportType + "_report_" + timestamp + ".html"
  }

  /**
   * With timestamps of one fixed length, the file name determines both the
   * report type and the timestamp.
   */
  lemma FilenameInjective(type1: string, stamp1: string, type2: string, stamp2: string)
    requires |stamp1| == |stamp2|
    ensures ReportFilename(type1, stamp1) == ReportFilename(type2, stamp2) <==> type1 == type2 && stamp1 == stamp2
  {
    var f1, f2 := ReportFilename(type1, stamp1), ReportFilename(type2, stamp2);
    if f1 == f2 {
      assert |type1| == |type2|;
      var n := |type1|;
      assert f1[8..8 + n] == type1 && f2[8..8 + n] == type2;
      assert f1[16 + n..16 + n + |stamp1|] == stamp1;
      assert f2[16 + n..16 + n + |stamp2|] == stamp2;
    }
  }

  /**
   * Two reports of the same type get the same file name exactly when they are
   * written within the same second; the later one then overwrites the earlier.
   */
  lemma SameSecondSameFile(reportType: string, d1: DateTime, d2: DateTime)
    requires Valid(d1) && Valid(d2)
    ensures ReportFilename(reportType, Stamp(d1)) == ReportFilename(reportType, Stamp(d2)) <==> d1 == d2
  {
    StampShape(d1);
    StampShape(d2);
    FilenameInjective(reportType, Stamp(d1), reportType, Stamp(d2));
    StampInjective(d1, d2);
  }

  // ---------------------------------------------------------------------------
  // Text helpers: `str.capitalize` on ASCII letters and `str` of a port number

  function UpperAscii(c: char): char
  {
    if 'a' <= c <= 'z' then (c as int - 32) as char else c
  }

  function LowerAscii(c: char): char
  {
    if 'A' <= c <= 'Z' then (c as int + 32) as char else c
  }

  function LowerAll(s: string): string
  {
    if s == [] then [] else [LowerAscii(s[0])] + LowerAll(s[1..])
  }

  /** `str.capitalize`: first letter upper case, every other letter lower case. */
  function Capitalize(s: string): string
  {
    if s == [] then [] else [UpperAscii(s[0])] + LowerAll(s[1..])
  }

  lemma {:induction false} LowerAllShape(s: string)
    ensures |LowerAll(s)| == |s|
    ensures forall i :: 0 <= i < |s| ==> LowerAll(s)[i] == LowerAscii(s[i])
  {
    if s != [] {
      LowerAllShape(s[1..]);
    }
  }

  /**
   * Capitalizing keeps the length, changes only letters (so it neither adds
   * nor removes a `<`), and capitalizing twice is capitalizing once.
   */
  lemma CapitalizeProperties(s: string)
    ensures |Capitalize(s)| == |s|
    ensures forall i :: 0 <= i < |s| ==> (Capitalize(s)[i] == '<' <==> s[i] == '<')
    ensures ('<' in Capitalize(s)) <==> ('<' in s)
    ensures Capitalize(Capitalize(s)) == Capitalize(s)
  {
    if s != [] {
      LowerAllShape(s[1..]);
      var c := Capitalize(s);
      forall i | 0 <= i < |s|
        ensures c[i] == '<' <==> s[i] == '<'
      {
        if i > 0 { assert c[i] == LowerAll(s[1..])[i - 1]; }
      }
      LowerAllShape(c[1..]);
      assert c[1..] == LowerAll(s[1..]);
      var cc := Capitalize(c);
      assert |cc| == |c|;
      forall i | 0 <= i < |c|
        ensures cc[i] == c[i]
      {
        if i > 0 { assert cc[i] == LowerAll(c[1..])[i - 1]; }
      }
    }
  }

  /** The network report's heading word. */
  lemma CapitalizeNetwork()
    ensures Capitalize("network") == "Network"
  {
    assert "network"[1..] == "etwork";
    LowerAllShape("etwork");
  }

  /** `str(n)` for a non-negative integer: its decimal digits without padding. */
  function NatToString(n: nat): (s: string)
    ensures |s| >= 1
    ensures forall i :: 0 <= i < |s| ==> IsDigit(s[i])
    ensures s[0] == '0' ==> n == 0
  {
    if n < 10 then [DigitChar(n)] else NatToString(n / 10) + [DigitChar(n % 10)]
  }

  /** `str(n)` reads back as `n`: the port number is written in decimal. */
  lemma {:induction false} NatToStringValue(n: nat)
    ensures DecimalValue(NatToString(n)) == n
  {
    var s := NatToString(n);
    if n < 10 {
      assert s[..|s| - 1] == [];
    } else {
      assert s[..|s| - 1] == NatToString(n / 10);
      assert s[|s| - 1] == DigitChar(n % 10);
      NatToStringValue(n / 10);
    }
  }

  /** Different port numbers are written differently. */
  lemma NatToStringInjective(a: nat, b: nat)
    ensures NatToString(a) == NatToString(b) <==> a == b
  {
    NatToStringValue(a);
    NatToStringValue(b);
  }

  /** The length of the run of decimal digits a string starts with. */
  function LeadingDigits(s: string): (k: nat)
    ensures k <= |s|
  {
    if s == [] || !IsDigit(s[0]) then 0 else 1 + LeadingDigits(s[1..])
  }

  lemma {:induction false} LeadingDigitsOf(digits: string, rest: string)
    requires forall i :: 0 <= i < |digits| ==> IsDigit(digits[i])
    requires rest != [] && !IsDigit(rest[0])
    ensures LeadingDigits(digits + rest) == |digits|
  {
    if digits == [] {
      assert digits + rest == rest;
    } else {
      assert (digits + rest)[1..] == digits[1..] + rest;
      LeadingDigitsOf(digits[1..], rest);
    }
  }

  // ---------------------------------------------------------------------------
  // The document

  /** The text of one list item: `port (service) - state`. */
  function ItemText(p: PortEntry): string
  {
    NatToString(p.port) + " (" + p.service + ") - " + p.state
  }

  /** A list item's text determines the port it was written for. */
  lemma ItemTextPort(p: PortEntry, q: PortEntry)
    ensures ItemText(p) == ItemText(q) ==> p.port == q.port
  {
    var a, b := NatToString(p.port), NatToString(q.port);
    var x := " (" + p.service + ") - " + p.state;
    var y := " (" + q.service + ") - " + q.state;
    assert ItemText(p) == a + x;
    assert ItemText(q) == b + y;
    if ItemText(p) == ItemText(q) {
      LeadingDigitsOf(a, x);
      LeadingDigitsOf(b, y);
      assert a == (a + x)[..|a|];
      assert b == (b + y)[..|b|];
      NatToStringInjective(p.port, q.port);
    }
  }

  function PortItem(p: PortEntry): string
  {
    "<li>" + ItemText(p) + "</li>"
  }

  /** The list items of a host's ports, in report order. */
  function Items(ports: seq<PortEntry>): string
  {
    if ports == [] then "" else PortItem(ports[0]) + Items(ports[1..])
  }

  /** The heading and list opening written before a host's items. */
  function HostOpening(ip: string): string
  {
    "<h2>Host: " + ip + "</h2>" + "<h3>Open Ports:</h3><ul>"
  }

  function HostSection(h: HostEntry): string
  {
    HostOpening(h.ip) + Items(h.ports) + "</ul>"
  }

  /** One section per host, in report order. */
  function Sections(hosts: seq<HostEntry>): string
  {
    if hosts == [] then "" else HostSection(hosts[0]) + Sections(hosts[1..])
  }

  /** What is written before the host sections, whatever the report type. */
  function Heading(reportType: string, timestamp: string): string
  {
    "<html><body>" + "<h1>" + Capitalize(reportType) + " Report</h1>" + "<p>Generated at: " + timestamp + "</p>"
  }

  /** The whole file: host sections only for the report type "network". */
  function ReportHtml(report: Report, reportType: string, timestamp: string): string
  {
    Heading(reportType, timestamp) + (if reportType == "network" then Sections(report.hosts) else "") + "</body></html>"
  }

  lemma {:induction false} ItemsAppend(ports: seq<PortEntry>, p: PortEntry)
    ensures Items(ports + [p]) == Items(ports) + PortItem(p)
  {
    if ports == [] {
      assert [p][1..] == [];
    } else {
      assert (ports + [p])[1..] == ports[1..] + [p];
      ItemsAppend(ports[1..], p);
    }
  }

  /** The f-string of a list item, as `PortItem` groups it. */
  lemma ItemFString(p: PortEntry)
    ensures "<li>" + NatToString(p.port) + " (" + p.service + ") - " + p.state + "</li>" == PortItem(p)
  {
  }

  /** Writing item `j` after the first `j` items gives the first `j + 1`. */
  lemma WriteItemStep(written: string, ports: seq<PortEntry>, j: nat)
    requires j < |ports|
    ensures written + Items(ports[..j]) + PortItem(ports[j]) == written + Items(ports[..j + 1])
  {
    ItemsAppend(ports[..j], ports[j]);
    assert ports[..j + 1] == ports[..j] + [ports[j]];
    Assoc(written, Items(ports[..j]), PortItem(ports[j]));
  }

  lemma {:induction false} SectionsAppend(hosts: seq<HostEntry>, h: HostEntry)
    ensures Sections(hosts + [h]) == Sections(hosts) + HostSection(h)
  {
    if hosts == [] {
      assert [h][1..] == [];
    } else {
      assert (hosts + [h])[1..] == hosts[1..] + [h];
      SectionsAppend(hosts[1..], h);
    }
  }

  /** Writing the section of host `i` after the first `i` sections gives the first `i + 1`. */
  lemma WriteSectionStep(written: string, hosts: seq<HostEntry>, i: nat)
    requires i < |hosts|
    ensures written + Sections(hosts[..i]) + HostSection(hosts[i]) == written + Sections(hosts[..i + 1])
  {
    SectionsAppend(hosts[..i], hosts[i]);
    assert hosts[..i + 1] == hosts[..i] + [hosts[i]];
    Assoc(written, Sections(hosts[..i]), HostSection(hosts[i]));
  }

  lemma Assoc(a: string, b: string, c: string)
    ensures a + b + c == a + (b + c)
  {
  }

  /**
   * The writes for one host of a network report: its heading, the list
   * opening, one item per port in order, and the list closing.
   */
  method WriteHostSection(host: HostEntry) returns (text: string)
    ensures text == HostSection(host)
  {
    text := "<h2>Host: " + host.ip + "</h2>";
    text := text + "<h3>Open Ports:</h3><ul>";
    ghost var opening := text;
    var j := 0;
    while j < |host.ports|
      invariant 0 <= j <= |host.ports|
      invariant text == opening + Items(host.ports[..j])
    {
      var port := host.ports[j];
      var item := "<li>" + NatToString(port.port) + " (" + port.service + ") - " + port.state + "</li>";
      ItemFString(port);
      text := text + item;
      WriteItemStep(opening, host.ports, j);
      j := j + 1;
    }
    assert host.ports[..j] == host.ports;
    text := text + "</ul>";
  }

  /**
   * `generate_html_report`: returns the file name and the text of the
   * successive writes: the heading, then for a network report each host's
   * section in report order, then the closing tags.
   */
  method GenerateHtmlReport(report: Report, reportType: string, timestamp: string)
    returns (filename: string, html: string)
    ensures filename == ReportFilename(reportType, timestamp)
    ensures html == ReportHtml(report, reportType, timestamp)
  {
    filename := "reports/" + reportType + "_report_" + timestamp + ".html";
    html := "<html><body>";
    html := html + "<h1>" + Capitalize(reportType) + " Report</h1>";
    html := html + "<p>Generated at: " + timestamp + "</p>";
    ghost var heading := html;
    if reportType == "network" {
      var hosts := report.hosts;
      var i := 0;
      while i < |hosts|
        invariant 0 <= i <= |hosts|
        invariant html == heading + Sections(hosts[..i])
      {
        var section := WriteHostSection(hosts[i]);
        html := html + section;
        WriteSectionStep(heading, hosts, i);
        i := i + 1;
      }
      assert hosts[..i] == hosts;
    }
    html := html + "</body></html>";
  }
}
