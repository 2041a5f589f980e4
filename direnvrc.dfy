/**
 * The shipped `direnvrc` text and the `DIRENVRC_VERSION` number read out of
 * it (devenv/src/devenv.rs, the `DIRENVRC` and `DIRENVRC_VERSION` statics).
 */
module Direnvrc {
  import opened Common
  import opened Strings

  const RollingSwitch: string := "DEVENV_DIRENVRC_ROLLING_UPGRADE="
  const RollingOff: string := RollingSwitch + "0"
  const RollingOn: string := RollingSwitch + "1"
  const VersionMarker: string := "export DEVENV_DIRENVRC_VERSION"

  /** The embedded script with every rolling-upgrade switch turned on: none is left off, and the length is kept. */
  function Shipped(raw: string): (r: string)
    ensures !Contains(r, RollingOff)
    ensures |r| == |raw|
    ensures !Contains(raw, RollingOff) ==> r == raw
  {
    SwitchShapes();
    ReplaceAllRemoves(raw, RollingOff, RollingOn);
    ReplaceAllLength(raw, RollingOff, RollingOn);
    ReplaceAll(raw, RollingOff, RollingOn)
  }

  /** The two switches differ only in their last digit, and neither digit occurs before it. */
  lemma SwitchShapes()
    ensures |RollingOn| == |RollingOff| > 0
    ensures RollingOff[|RollingOff| - 1] !in RollingOn
    ensures RollingOn[|RollingOn| - 1] !in RollingOff[..|RollingOff| - 1]
  {
    assert '0' !in RollingSwitch && '1' !in RollingSwitch;
    assert RollingOff[..|RollingOff| - 1] == RollingSwitch;
  }

  /** `Iterator::find`: the index of the first line that contains `pat`. */
  function FindLine(lines: seq<string>, pat: string): (r: Option<nat>)
    ensures r.None? <==> forall j :: 0 <= j < |lines| ==> !Contains(lines[j], pat)
    ensures r.Some? ==> r.value < |lines| && Contains(lines[r.value], pat)
    ensures r.Some? ==> forall j :: 0 <= j < r.value ==> !Contains(lines[j], pat)
  {
    if lines == [] then None
    else if Contains(lines[0], pat) then Some(0)
    else match FindLine(lines[1..], pat)
      case None => None
      case Some(i) => Some(i + 1)
  }

  /**
   * The version: on the first line naming `DEVENV_DIRENVRC_VERSION`, the text
   * after the last `=`, trimmed and read as a `u8`; 0 when any step misses.
   */
  function DirenvrcVersion(text: string): (v: nat)
    ensures v < 256
  {
    var lines := Lines(text);
    match FindLine(lines, VersionMarker)
    case None => 0
    case Some(i) =>
      match ParseU8(Trim(AfterLast(lines[i], '=')))
      case None => 0
      case Some(n) => n
  }

  // ---------------------------------------------------------------------
  // properties

  /** A digit run is its own trimmed form. */
  lemma TrimDigits(d: string)
    requires |d| > 0 && AllDigits(d)
    ensures Trim(d) == d
  {
    TrimPadded("", d, "");
    assert "" + d + "" == d;
  }

  /** The marker line `export DEVENV_DIRENVRC_VERSION=<n>` names the version `n`. */
  lemma MarkerLineVersion(n: nat)
    requires n < 256
    ensures var line := VersionMarker + "=" + NatToString(n);
            Contains(line, VersionMarker) && IsLine(line)
            && ParseU8(Trim(AfterLast(line, '='))) == Some(n)
  {
    var digits := NatToString(n);
    var line := VersionMarker + "=" + digits;
    assert line[..|VersionMarker|] == VersionMarker;
    assert '=' !in digits && '\n' !in digits by {
      forall k | 0 <= k < |digits| ensures digits[k] != '=' && digits[k] != '\n' {
        assert IsDigit(digits[k]);
      }
    }
    assert '\n' !in VersionMarker;
    assert line[|line| - 1] == digits[|digits| - 1];
    assert IsDigit(digits[|digits| - 1]);
    AfterLastSeparated(VersionMarker, '=', digits);
    TrimDigits(digits);
    ParseU8OfNatToString(n);
  }

  /**
   * A script whose first marker line is `export DEVENV_DIRENVRC_VERSION=<n>`
   * has version `n`.
   */
  lemma {:induction false} VersionOfMarkerLine(before: seq<string>, n: nat, after: seq<string>)
    requires n < 256
    requires forall j :: 0 <= j < |before| ==> !Contains(before[j], VersionMarker)
    requires forall j :: 0 <= j < |before| ==> IsLine(before[j])
    requires forall j :: 0 <= j < |after| ==> IsLine(after[j])
    ensures DirenvrcVersion(Unlines(before + [VersionMarker + "=" + NatToString(n)] + after)) == n
  {
    var line := VersionMarker + "=" + NatToString(n);
    var ls := before + [line] + after;
    MarkerLineVersion(n);
    UnbrokenLines(before, line, after);
    FirstMatchAt(before, line, after, VersionMarker);
    VersionAt(Unlines(ls), |before|, n);
  }

  lemma UnbrokenLines(before: seq<string>, line: string, after: seq<string>)
    requires forall j :: 0 <= j < |before| ==> IsLine(before[j])
    requires IsLine(line)
    requires forall j :: 0 <= j < |after| ==> IsLine(after[j])
    ensures Lines(Unlines(before + [line] + after)) == before + [line] + after
  {
    var ls := before + [line] + after;
    AllLines(before, line, after);
    LinesUnlines(ls);
  }

  lemma AllLines(before: seq<string>, line: string, after: seq<string>)
    requires forall j :: 0 <= j < |before| ==> IsLine(before[j])
    requires IsLine(line)
    requires forall j :: 0 <= j < |after| ==> IsLine(after[j])
    ensures forall j :: 0 <= j < |before + [line] + after| ==> IsLine((before + [line] + after)[j])
  {
    var ls := before + [line] + after;
    forall j | 0 <= j < |ls| ensures IsLine(ls[j]) {
      if j < |before| { assert ls[j] == before[j]; }
      else if j == |before| { assert ls[j] == line; }
      else { assert ls[j] == after[j - |before| - 1]; }
    }
  }

  lemma VersionAt(text: string, i: nat, n: nat)
    requires FindLine(Lines(text), VersionMarker) == Some(i)
    requires ParseU8(Trim(AfterLast(Lines(text)[i], '='))) == Some(n)
    ensures DirenvrcVersion(text) == n
  {
  }

  /** `FindLine` stops at the first line that matches. */
  lemma FirstMatchAt(before: seq<string>, line: string, after: seq<string>, pat: string)
    requires forall j :: 0 <= j < |before| ==> !Contains(before[j], pat)
    requires Contains(line, pat)
    ensures FindLine(before + [line] + after, pat) == Some(|before|)
  {
    var ls := before + [line] + after;
    assert ls[|before|] == line;
  }

  /** A script without a marker line has version 0. */
  lemma VersionWithoutMarker(text: string)
    requires forall j :: 0 <= j < |Lines(text)| ==> !Contains(Lines(text)[j], VersionMarker)
    ensures DirenvrcVersion(text) == 0
  {
  }
}
