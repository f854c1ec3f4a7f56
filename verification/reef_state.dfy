/** Scoring bookkeeping for the reef: six sides, two branches per side and
    three scorable levels (L2, L3, L4) per branch. */
module ReefState {
  import opened Wrappers

  /** The exceptions the Java code throws: `IllegalArgumentException` for a
      bad level or branch, `ArrayIndexOutOfBoundsException` for a bad side. */
  datatype ReefError = InvalidLevel | InvalidBranch | SideOutOfBounds

  /** Scored flags for L2, L3 and L4, in that order. */
  type Coral = c: seq<bool> | |c| == 3 witness [false, false, false]

  datatype Branch = Branch(name: string, coral: Coral)

  type BranchPair = s: seq<Branch> | |s| == 2
    witness [Branch("", [false, false, false]), Branch("", [false, false, false])]

  datatype ReefSide = ReefSide(branches: BranchPair)

  type SideList = s: seq<ReefSide> | |s| == 6
    witness seq(6, _ => ReefSide([Branch("", [false, false, false]), Branch("", [false, false, false])]))

  datatype Reef = Reef(sides: SideList)

  /** A spot on one side: branch index and level number. */
  datatype CoralCoordinate = CoralCoordinate(branch: int, level: int)

  predicate ValidLevel(level: int) {
    2 <= level <= 4
  }

  predicate ValidBranch(branch: int) {
    0 <= branch <= 1
  }

  predicate ValidSide(side: int) {
    0 <= side < 6
  }

  // ---------------------------------------------------------------- Branch

  function NewBranch(name: string): (b: Branch)
    ensures b.name == name
    ensures forall level :: ValidLevel(level) ==> GetLevel(b, level) == Ok(false)
  {
    Branch(name, [false, false, false])
  }

  function GetLevel(b: Branch, level: int): (r: Result<bool, ReefError>)
    ensures r.Err? <==> !ValidLevel(level)
    ensures r.Err? ==> r.error == InvalidLevel
  {
    if level - 2 < 0 || level - 2 > 2 then Err(InvalidLevel) else Ok(b.coral[level - 2])
  }

  function SetLevel(b: Branch, level: int, state: bool): (r: Result<Branch, ReefError>)
    ensures r.Err? <==> !ValidLevel(level)
    ensures r.Err? ==> r.error == InvalidLevel
    ensures r.Ok? ==> r.value.name == b.name && GetLevel(r.value, level) == Ok(state)
    ensures r.Ok? ==> forall other :: other != level ==> GetLevel(r.value, other) == GetLevel(b, other)
  {
    if level - 2 < 0 || level - 2 > 2 then Err(InvalidLevel)
    else Ok(b.(coral := b.coral[level - 2 := state]))
  }

  /** Reads the level and writes back its negation. */
  function ToggleLevel(b: Branch, level: int): (r: Result<Branch, ReefError>)
    ensures r.Err? <==> !ValidLevel(level)
    ensures r.Ok? ==> r.value.name == b.name
    ensures r.Ok? ==> GetLevel(r.value, level) == Ok(!GetLevel(b, level).value)
    ensures r.Ok? ==> forall other :: other != level ==> GetLevel(r.value, other) == GetLevel(b, other)
  {
    match GetLevel(b, level)
    case Err(e) => Err(e)
    case Ok(current) => SetLevel(b, level, !current)
  }

  lemma ToggleLevelTwice(b: Branch, level: int)
    requires ValidLevel(level)
    ensures ToggleLevel(ToggleLevel(b, level).value, level) == Ok(b)
  {
    var once := ToggleLevel(b, level).value;
    var twice := ToggleLevel(once, level).value;
    assert twice.coral[level - 2] == b.coral[level - 2];
    assert forall i :: 0 <= i < 3 ==> twice.coral[i] == GetLevel(twice, i + 2).value;
    assert twice.coral == b.coral;
  }

  // ---------------------------------------------------------------- ReefSide

  function NewSide(left: string, right: string): ReefSide {
    ReefSide([NewBranch(left), NewBranch(right)])
  }

  function GetBranch(side: ReefSide, branch: int): (r: Result<Branch, ReefError>)
    ensures r.Err? <==> !ValidBranch(branch)
    ensures r.Err? ==> r.error == InvalidBranch
    ensures r.Ok? ==> r.value in side.branches && r.value == side.branches[branch]
  {
    if branch < 0 || branch > 1 then Err(InvalidBranch) else Ok(side.branches[branch])
  }

  /** Whether the spot at (branch, level) of a side is scored. */
  predicate Scored(side: ReefSide, branch: int, level: int)
    requires ValidBranch(branch) && ValidLevel(level)
  {
    side.branches[branch].coral[level - 2]
  }

  /** Position of a spot in the search order: L4 before L3 before L2, and at
      each level branch 0 before branch 1. */
  function ScanRank(branch: int, level: int): int {
    (4 - level) * 2 + branch
  }

  /** The first unscored spot in search order, or none when all six spots
      are scored. */
  method BestEmptyCoordinate(side: ReefSide) returns (r: Option<CoralCoordinate>)
    ensures r.None? <==> forall b, l :: ValidBranch(b) && ValidLevel(l) ==> Scored(side, b, l)
    ensures r.Some? ==> ValidBranch(r.value.branch) && ValidLevel(r.value.level)
    ensures r.Some? ==> !Scored(side, r.value.branch, r.value.level)
    ensures r.Some? ==> forall b, l :: (ValidBranch(b) && ValidLevel(l)
      && ScanRank(b, l) < ScanRank(r.value.branch, r.value.level)) ==> Scored(side, b, l)
  {
    var level := 4;
    while level >= 2
      invariant 1 <= level <= 4
      invariant forall b, l :: ValidBranch(b) && level < l <= 4 ==> Scored(side, b, l)
    {
      var branchIndex := 0;
      while branchIndex < |side.branches|
        invariant 0 <= branchIndex <= 2
        invariant forall b :: 0 <= b < branchIndex ==> Scored(side, b, level)
      {
        var scored := GetLevel(side.branches[branchIndex], level).value;
        if !scored {
          assert !Scored(side, branchIndex, level);
          return Some(CoralCoordinate(branchIndex, level));
        }
        branchIndex := branchIndex + 1;
      }
      level := level - 1;
    }
    return None;
  }

  // ---------------------------------------------------------------- Reef

  /** The reef as constructed: sides A/B, C/D, E/F, G/H, I/J, K/L. */
  function NewReef(): (r: Reef)
    ensures forall s, b, l :: ValidSide(s) && ValidBranch(b) && ValidLevel(l) ==> GetCell(r, s, b, l) == Ok(false)
  {
    Reef([NewSide("A", "B"), NewSide("C", "D"), NewSide("E", "F"),
          NewSide("G", "H"), NewSide("I", "J"), NewSide("K", "L")])
  }

  /** `ReefState.getLevel(side, branch, level)`; the side index is checked
      first, then the branch, then the level. */
  function GetCell(reef: Reef, side: int, branch: int, level: int): (r: Result<bool, ReefError>)
    ensures !ValidSide(side) ==> r == Err(SideOutOfBounds)
    ensures ValidSide(side) && !ValidBranch(branch) ==> r == Err(InvalidBranch)
    ensures ValidSide(side) && ValidBranch(branch) && !ValidLevel(level) ==> r == Err(InvalidLevel)
    ensures r.Ok? <==> ValidSide(side) && ValidBranch(branch) && ValidLevel(level)
  {
    if !ValidSide(side) then Err(SideOutOfBounds)
    else match GetBranch(reef.sides[side], branch)
      case Err(e) => Err(e)
      case Ok(b) => GetLevel(b, level)
  }

  /** Replaces one branch of one side, leaving everything else as it was. */
  function ReplaceBranch(reef: Reef, side: int, branch: int, b: Branch): Reef
    requires ValidSide(side) && ValidBranch(branch)
  {
    var s := reef.sides[side];
    reef.(sides := reef.sides[side := s.(branches := s.branches[branch := b])])
  }

  /** `ReefState.setLevel(side, branch, level, state)`. */
  function SetCell(reef: Reef, side: int, branch: int, level: int, state: bool): (r: Result<Reef, ReefError>)
    ensures r.Ok? <==> ValidSide(side) && ValidBranch(branch) && ValidLevel(level)
    ensures r.Err? ==> r.error == GetCell(reef, side, branch, level).error
    ensures r.Ok? ==> GetCell(r.value, side, branch, level) == Ok(state)
    ensures r.Ok? ==> forall s, b, l :: (s, b, l) != (side, branch, level) ==> GetCell(r.value, s, b, l) == GetCell(reef, s, b, l)
  {
    if !ValidSide(side) then Err(SideOutOfBounds)
    else match GetBranch(reef.sides[side], branch)
      case Err(e) => Err(e)
      case Ok(b) =>
        match SetLevel(b, level, state)
        case Err(e) => Err(e)
        case Ok(b') => Ok(ReplaceBranch(reef, side, branch, b'))
  }

  /** `ReefState.toggleLevel(side, branch, level)`. */
  function ToggleCell(reef: Reef, side: int, branch: int, level: int): (r: Result<Reef, ReefError>)
    ensures r.Ok? <==> ValidSide(side) && ValidBranch(branch) && ValidLevel(level)
    ensures r.Err? ==> r.error == GetCell(reef, side, branch, level).error
    ensures r.Ok? ==> GetCell(r.value, side, branch, level) == Ok(!GetCell(reef, side, branch, level).value)
    ensures r.Ok? ==> forall s, b, l :: (s, b, l) != (side, branch, level) ==> GetCell(r.value, s, b, l) == GetCell(reef, s, b, l)
  {
    if !ValidSide(side) then Err(SideOutOfBounds)
    else match GetBranch(reef.sides[side], branch)
      case Err(e) => Err(e)
      case Ok(b) =>
        match ToggleLevel(b, level)
        case Err(e) => Err(e)
        case Ok(b') => Ok(ReplaceBranch(reef, side, branch, b'))
  }

  /** Two toggles of the same cell cancel: every cell reads as before. */
  lemma ToggleCellTwice(reef: Reef, side: int, branch: int, level: int)
    requires ValidSide(side) && ValidBranch(branch) && ValidLevel(level)
    ensures ToggleCell(reef, side, branch, level).Ok?
    ensures ToggleCell(ToggleCell(reef, side, branch, level).value, side, branch, level).Ok?
    ensures var twice := ToggleCell(ToggleCell(reef, side, branch, level).value, side, branch, level).value;
      forall s, b, l :: GetCell(twice, s, b, l) == GetCell(reef, s, b, l)
  {
  }
}
