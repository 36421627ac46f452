/**
 * Dock-area locations of the current library: a record of the button
 * section inside a side bar and the side (left or right) of that side bar,
 * its eight named constants, and the case-insensitive parser.
 */
module Locations {

  datatype SideBarButtonLocation = UpperTop | UpperBottom | LowerTop | LowerBottom

  datatype SideBarLocation = Left | Right

  /** The record DockAreaLocation(ButtonLocation, LeftRight); equality is structural. */
  datatype DockAreaLocation = DockAreaLocation(buttonLocation: SideBarButtonLocation, leftRight: SideBarLocation)

  const LeftUpperTop := DockAreaLocation(UpperTop, Left)
  const LeftUpperBottom := DockAreaLocation(UpperBottom, Left)
  const LeftLowerTop := DockAreaLocation(LowerTop, Left)
  const LeftLowerBottom := DockAreaLocation(LowerBottom, Left)
  const RightUpperTop := DockAreaLocation(UpperTop, Right)
  const RightUpperBottom := DockAreaLocation(UpperBottom, Right)
  const RightLowerTop := DockAreaLocation(LowerTop, Right)
  const RightLowerBottom := DockAreaLocation(LowerBottom, Right)

  /** The eight constants in declaration order. */
  const AllLocations: seq<DockAreaLocation> :=
    [LeftUpperTop, LeftUpperBottom, LeftLowerTop, LeftLowerBottom,
     RightUpperTop, RightUpperBottom, RightLowerTop, RightLowerBottom]

  /** Parse raises ArgumentException for an unknown name. */
  datatype ParseResult = Parsed(location: DockAreaLocation) | InvalidArgument

  function SideName(s: SideBarLocation): string {
    match s
    case Left => "Left"
    case Right => "Right"
  }

  function ButtonName(b: SideBarButtonLocation): string {
    match b
    case UpperTop => "UpperTop"
    case UpperBottom => "UpperBottom"
    case LowerTop => "LowerTop"
    case LowerBottom => "LowerBottom"
  }

  /** The name Parse accepts for a location: side name followed by section name. */
  function Name(loc: DockAreaLocation): string {
    SideName(loc.leftRight) + ButtonName(loc.buttonLocation)
  }

  /** Upper-cases an ASCII letter and leaves every other character alone. */
  function FoldChar(c: char): char {
    if 'a' <= c <= 'z' then (c as int - 32) as char else c
  }

  function UpperAscii(s: string): (r: string)
    ensures |r| == |s|
    ensures forall i :: 0 <= i < |s| ==> r[i] == FoldChar(s[i])
  {
    seq(|s|, i requires 0 <= i < |s| => FoldChar(s[i]))
  }

  /** string.Equals(a, b, StringComparison.OrdinalIgnoreCase), restricted to ASCII case folding. */
  predicate EqualsIgnoreCase(a: string, b: string) {
    |a| == |b| && forall i :: 0 <= i < |a| ==> FoldChar(a[i]) == FoldChar(b[i])
  }

  /** DockAreaLocation.Parse: the eight names in order, first match wins. */
  function Parse(s: string): ParseResult {
    if EqualsIgnoreCase(s, "LeftUpperTop") then Parsed(LeftUpperTop)
    else if EqualsIgnoreCase(s, "LeftUpperBottom") then Parsed(LeftUpperBottom)
    else if EqualsIgnoreCase(s, "LeftLowerTop") then Parsed(LeftLowerTop)
    else if EqualsIgnoreCase(s, "LeftLowerBottom") then Parsed(LeftLowerBottom)
    else if EqualsIgnoreCase(s, "RightUpperTop") then Parsed(RightUpperTop)
    else if EqualsIgnoreCase(s, "RightUpperBottom") then Parsed(RightUpperBottom)
    else if EqualsIgnoreCase(s, "RightLowerTop") then Parsed(RightLowerTop)
    else if EqualsIgnoreCase(s, "RightLowerBottom") then Parsed(RightLowerBottom)
    else InvalidArgument
  }

  /** The eight constants are pairwise distinct and every location is one of them. */
  lemma ConstantsDistinctAndComplete()
    ensures forall i, j :: 0 <= i < j < |AllLocations| ==> AllLocations[i] != AllLocations[j]
    ensures forall loc: DockAreaLocation :: loc in AllLocations
    ensures |AllLocations| == 8
  {
    forall loc: DockAreaLocation ensures loc in AllLocations {
      match loc.leftRight
      case Left => assert loc == AllLocations[ButtonIndex(loc.buttonLocation)];
      case Right => assert loc == AllLocations[4 + ButtonIndex(loc.buttonLocation)];
    }
  }

  /** Position of a section among the four constants of one side. */
  function ButtonIndex(b: SideBarButtonLocation): (r: nat)
    ensures r < 4
  {
    match b
    case UpperTop => 0
    case UpperBottom => 1
    case LowerTop => 2
    case LowerBottom => 3
  }

  lemma FoldIdempotent(c: char)
    ensures FoldChar(FoldChar(c)) == FoldChar(c)
  {
  }

  /** The eight literal names the source compares against are the names of the eight constants. */
  lemma NameLiterals()
    ensures Name(LeftUpperTop) == "LeftUpperTop" && Name(LeftUpperBottom) == "LeftUpperBottom"
    ensures Name(LeftLowerTop) == "LeftLowerTop" && Name(LeftLowerBottom) == "LeftLowerBottom"
    ensures Name(RightUpperTop) == "RightUpperTop" && Name(RightUpperBottom) == "RightUpperBottom"
    ensures Name(RightLowerTop) == "RightLowerTop" && Name(RightLowerBottom) == "RightLowerBottom"
  {
    LeftNameLiterals();
    RightNameLiterals();
  }

  lemma LeftNameLiterals()
    ensures Name(LeftUpperTop) == "LeftUpperTop" && Name(LeftUpperBottom) == "LeftUpperBottom"
    ensures Name(LeftLowerTop) == "LeftLowerTop" && Name(LeftLowerBottom) == "LeftLowerBottom"
  {
  }

  lemma RightNameLiterals()
    ensures Name(RightUpperTop) == "RightUpperTop" && Name(RightUpperBottom) == "RightUpperBottom"
    ensures Name(RightLowerTop) == "RightLowerTop" && Name(RightLowerBottom) == "RightLowerBottom"
  {
  }

  /** A name is identified by its length, its first letter and the letter after the side prefix. */
  lemma NameShape(loc: DockAreaLocation)
    ensures |Name(loc)| == |SideName(loc.leftRight)| + |ButtonName(loc.buttonLocation)|
    ensures |SideName(loc.leftRight)| == (if loc.leftRight == Left then 4 else 5)
    ensures |ButtonName(loc.buttonLocation)| == (if loc.buttonLocation in {UpperTop, LowerTop} then 8 else 11)
    ensures FoldChar(Name(loc)[0]) == (if loc.leftRight == Left then 'L' else 'R')
    ensures FoldChar(Name(loc)[|SideName(loc.leftRight)|])
         == (if loc.buttonLocation in {UpperTop, UpperBottom} then 'U' else 'L')
  {
  }

  /** Two distinct locations have names that differ even ignoring case. */
  lemma NamesDistinctIgnoringCase(a: DockAreaLocation, b: DockAreaLocation)
    requires EqualsIgnoreCase(Name(a), Name(b))
    ensures a == b
  {
    NameShape(a);
    NameShape(b);
    assert FoldChar(Name(a)[0]) == FoldChar(Name(b)[0]);
    assert a.leftRight == b.leftRight;
    var k := |SideName(a.leftRight)|;
    assert FoldChar(Name(a)[k]) == FoldChar(Name(b)[k]);
  }

  /** Each of the eight names parses to the constant with the matching side and section. */
  lemma ParseName(side: SideBarLocation, button: SideBarButtonLocation)
    ensures Parse(SideName(side) + ButtonName(button)) == Parsed(DockAreaLocation(button, side))
  {
    var loc := DockAreaLocation(button, side);
    var s := Name(loc);
    NameLiterals();
    assert EqualsIgnoreCase(s, s);
    forall other | other != loc
      ensures !EqualsIgnoreCase(s, Name(other))
    {
      if EqualsIgnoreCase(s, Name(other)) {
        NamesDistinctIgnoringCase(loc, other);
      }
    }
  }

  /** Parse does not distinguish a string from its ASCII upper-case form. */
  lemma ParseIgnoresCase(s: string)
    ensures Parse(UpperAscii(s)) == Parse(s)
  {
    var u := UpperAscii(s);
    forall i | 0 <= i < |s| ensures FoldChar(u[i]) == FoldChar(s[i]) {
      FoldIdempotent(s[i]);
    }
    SameFoldSameMatches(u, s, "LeftUpperTop");
    SameFoldSameMatches(u, s, "LeftUpperBottom");
    SameFoldSameMatches(u, s, "LeftLowerTop");
    SameFoldSameMatches(u, s, "LeftLowerBottom");
    SameFoldSameMatches(u, s, "RightUpperTop");
    SameFoldSameMatches(u, s, "RightUpperBottom");
    SameFoldSameMatches(u, s, "RightLowerTop");
    SameFoldSameMatches(u, s, "RightLowerBottom");
  }

  /** Two strings that fold alike match the same names. */
  lemma SameFoldSameMatches(a: string, b: string, n: string)
    requires |a| == |b| && forall i :: 0 <= i < |a| ==> FoldChar(a[i]) == FoldChar(b[i])
    ensures EqualsIgnoreCase(a, n) == EqualsIgnoreCase(b, n)
  {
  }

  /** Parse succeeds exactly on the eight names (ignoring case) and then returns the named location. */
  lemma ParseCharacterised(s: string)
    ensures Parse(s).Parsed? <==> exists loc :: EqualsIgnoreCase(s, Name(loc))
    ensures Parse(s).Parsed? ==> EqualsIgnoreCase(s, Name(Parse(s).location))
  {
    if exists loc :: EqualsIgnoreCase(s, Name(loc)) {
      var loc :| EqualsIgnoreCase(s, Name(loc));
      ParseAcceptsNames(s, loc);
    }
    ParseMatchesItsResult(s);
  }

  /** A string that matches one of the names parses. */
  lemma ParseAcceptsNames(s: string, loc: DockAreaLocation)
    requires EqualsIgnoreCase(s, Name(loc))
    ensures Parse(s).Parsed?
  {
    NameLiterals();
    assert loc in AllLocations;
  }

  /** What Parse returns is a location whose name the string matches. */
  lemma ParseMatchesItsResult(s: string)
    ensures Parse(s).Parsed? ==> EqualsIgnoreCase(s, Name(Parse(s).location))
  {
    NameLiterals();
    var r := Parse(s);
    if r.Parsed? {
      var loc := r.location;
      if EqualsIgnoreCase(s, "LeftUpperTop") { assert loc == LeftUpperTop; }
      else if EqualsIgnoreCase(s, "LeftUpperBottom") { assert loc == LeftUpperBottom; }
      else if EqualsIgnoreCase(s, "LeftLowerTop") { assert loc == LeftLowerTop; }
      else if EqualsIgnoreCase(s, "LeftLowerBottom") { assert loc == LeftLowerBottom; }
      else if EqualsIgnoreCase(s, "RightUpperTop") { assert loc == RightUpperTop; }
      else if EqualsIgnoreCase(s, "RightUpperBottom") { assert loc == RightUpperBottom; }
      else if EqualsIgnoreCase(s, "RightLowerTop") { assert loc == RightLowerTop; }
      else { assert loc == RightLowerBottom; }
    }
  }
}
