/** A worked example: a complete listing, as the English-language netsh
    prints it, run through the parser model. */
module ListingExample {
  import opened Text
  import opened PortProxy

  // An English listing of `netsh interface portproxy show v4tov4`, with the
  // column gaps of the real tool.
  const Title: string := "Listen on ipv4:             Connect to ipv4:"
  const Header: string := "Address" + "         " + ("Port" + "        " + ("Address" + "         " + "Port"))
  const Dashes: string := "---------------" + " " + ("----------" + "  " + ("---------------" + " " + "----------"))
  const Row0: string := "0.0.0.0" + "         " + ("8080" + "        " + ("172.29.223.44" + "   " + "1996"))
  const Row1: string := "0.0.0.0" + "         " + ("2222" + "        " + ("172.29.223.44" + "   " + "22"))

  /** The lines of the listing, blank lines included. */
  function ListingLines(): seq<string> {
    ["", Title, "", Header, Dashes, Row0, Row1]
  }

  /** A whole listing as netsh prints it, CRLF line ends included: the two
      rows after the header yield two rules, in row order, each with the
      listen port as connect port and the fourth column unused. */
  lemma ExampleListing()
    ensures ParsedRules(JoinCrLf(ListingLines()))
         == [Rule("8080", "0.0.0.0", "8080", "172.29.223.44"),
             Rule("2222", "0.0.0.0", "2222", "172.29.223.44")]
  {
    ListingHasNoLineBreak();
    NotContainsWithoutChar("", Separator);
    TitleIsHeader();
    HeaderIsHeader();
    DashesIsSeparator();
    Row0Tokens();
    Row1Tokens();
    TwoRowListing(Title, Header, Dashes, Row0, Row1,
                  ["0.0.0.0", "8080", "172.29.223.44", "1996"], ["0.0.0.0", "2222", "172.29.223.44", "22"]);
    FourTokenRule("0.0.0.0", "8080", "172.29.223.44", "1996");
    FourTokenRule("0.0.0.0", "2222", "172.29.223.44", "22");
  }

  /** A listing of a title, a blank line, a column header, the separator
      and two rows yields the rules of the two rows. */
  lemma TwoRowListing(title: string, header: string, dashes: string, row0: string, row1: string,
                      parts0: seq<string>, parts1: seq<string>)
    requires NoLineBreak(title) && NoLineBreak(header) && NoLineBreak(dashes)
    requires NoLineBreak(row0) && NoLineBreak(row1)
    requires !IsSeparatorLine("") && !IsSeparatorLine(title) && !IsSeparatorLine(header)
    requires IsSeparatorLine(dashes)
    requires Split(row0) == parts0 && Split(row1) == parts1
    ensures ParsedRules(JoinCrLf(["", title, "", header, dashes, row0, row1]))
         == LineRules(parts0) + LineRules(parts1)
  {
    var top := ["", title, "", header];
    var lines := top + [dashes] + [row0, row1];
    assert lines == ["", title, "", header, dashes, row0, row1];
    assert forall k :: 0 <= k < |top| ==> !IsSeparatorLine(top[k]);
    assert forall k :: 0 <= k < |lines| ==> NoLineBreak(lines[k]);
    ParsedJoined(lines);
    ParseAfterSeparator(top, dashes, [row0, row1]);
    TwoRows(row0, row1);
  }

  /** A text made of lines each ended by CRLF parses as those lines. */
  lemma ParsedJoined(lines: seq<string>)
    requires forall k :: 0 <= k < |lines| ==> NoLineBreak(lines[k])
    ensures ParsedRules(JoinCrLf(lines)) == ParseLines(lines)
  {
    SplitLinesJoinCrLf(lines);
  }

  /** Two lines yield the rules of the first, then those of the second. */
  lemma TwoRows(row0: string, row1: string)
    ensures RulesFrom([row0, row1]) == LineRules(Split(row0)) + LineRules(Split(row1))
  {
    assert [row0, row1][1..] == [row1];
    assert RulesFrom([row1]) == LineRules(Split(row1)) + RulesFrom([]);
  }

  lemma ListingHasNoLineBreak()
    ensures NoLineBreak(Title) && NoLineBreak(Header) && NoLineBreak(Dashes)
    ensures NoLineBreak(Row0) && NoLineBreak(Row1)
  {
    TitleNoLineBreak();
    HeaderNoLineBreak();
    DashesNoLineBreak();
    Row0NoLineBreak();
    Row1NoLineBreak();
  }

  lemma TitleNoLineBreak()
    ensures NoLineBreak(Title)
  {
    PrintableNoLineBreak(Title);
  }

  lemma HeaderNoLineBreak()
    ensures NoLineBreak(Header)
  {
    ColumnsNoLineBreak("Address", "         ", "Port", "        ", "Address", "         ", "Port");
  }

  lemma DashesNoLineBreak()
    ensures NoLineBreak(Dashes)
  {
    ColumnsNoLineBreak("---------------", " ", "----------", "  ", "---------------", " ", "----------");
  }

  lemma Row0NoLineBreak()
    ensures NoLineBreak(Row0)
  {
    ColumnsNoLineBreak("0.0.0.0", "         ", "8080", "        ", "172.29.223.44", "   ", "1996");
  }

  lemma Row1NoLineBreak()
    ensures NoLineBreak(Row1)
  {
    ColumnsNoLineBreak("0.0.0.0", "         ", "2222", "        ", "172.29.223.44", "   ", "22");
  }

  lemma TitleIsHeader()
    ensures !IsSeparatorLine(Title)
  {
    NotContainsWithoutChar(Title, Separator);
  }

  lemma HeaderIsHeader()
    ensures !IsSeparatorLine(Header)
  {
    NotContainsWithoutChar(Header, Separator);
  }

  lemma DashesIsSeparator()
    ensures IsSeparatorLine(Dashes)
  {
    ContainsPrefix(Dashes, Separator);
  }

  lemma Row0Tokens()
    ensures Split(Row0) == ["0.0.0.0", "8080", "172.29.223.44", "1996"]
  {
    SplitColumns("0.0.0.0", "         ", "8080", "        ", "172.29.223.44", "   ", "1996");
  }

  lemma Row1Tokens()
    ensures Split(Row1) == ["0.0.0.0", "2222", "172.29.223.44", "22"]
  {
    SplitColumns("0.0.0.0", "         ", "2222", "        ", "172.29.223.44", "   ", "22");
  }

  /** Four printable columns separated by printable gaps make a line
      without line boundaries. */
  lemma ColumnsNoLineBreak(a: string, g1: string, b: string, g2: string, c: string, g3: string, d: string)
    requires forall ch :: ch in a ==> ' ' <= ch <= '~'
    requires forall ch :: ch in g1 ==> ' ' <= ch <= '~'
    requires forall ch :: ch in b ==> ' ' <= ch <= '~'
    requires forall ch :: ch in g2 ==> ' ' <= ch <= '~'
    requires forall ch :: ch in c ==> ' ' <= ch <= '~'
    requires forall ch :: ch in g3 ==> ' ' <= ch <= '~'
    requires forall ch :: ch in d ==> ' ' <= ch <= '~'
    ensures NoLineBreak(a + g1 + (b + g2 + (c + g3 + d)))
  {
    PrintableNoLineBreak(d);
    PrintableAppend3(c, g3, d);
    PrintableAppend3(b, g2, c + g3 + d);
    PrintableAppend3(a, g1, b + g2 + (c + g3 + d));
  }

  /** Printable pieces joined make a text without line boundaries. */
  lemma PrintableAppend3(a: string, b: string, c: string)
    requires forall ch :: ch in a ==> ' ' <= ch <= '~'
    requires forall ch :: ch in b ==> ' ' <= ch <= '~'
    requires NoLineBreak(c)
    ensures NoLineBreak(a + b + c)
  {
    PrintableNoLineBreak(a);
    PrintableNoLineBreak(b);
    NoLineBreakAppend(a, b);
    NoLineBreakAppend(a + b, c);
  }
}
