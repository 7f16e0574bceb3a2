/**
 * The canonical user identifier: 32 lowercase hexadecimal digits in groups
 * 8-4-4-4-12, separated by hyphens, e.g. 618f4ed6-1c5b-4993-a149-f64700bf31dd.
 *
 * The service and the controller both test this shape with the same anchored
 * pattern; it is defined once here and used by both.
 */
module UserId {

  /** One character of the class `[0-9a-f]`. Uppercase hex is not in it. */
  predicate IsLowerHexDigit(c: char) {
    '0' <= c <= '9' || 'a' <= c <= 'f'
  }

  predicate AllLowerHex(s: string) {
    forall i | 0 <= i < |s| :: IsLowerHexDigit(s[i])
  }

  /** The widths of the hex groups of the pattern, in order. */
  const GroupWidths: seq<nat> := [8, 4, 4, 4, 12]

  /**
   * Anchored match of `s` against hex groups of the given widths joined by
   * '-': the first group, then (if more groups follow) a hyphen and the rest;
   * after the last group the input must end.
   */
  predicate MatchesGroups(s: string, widths: seq<nat>)
    decreases |widths|
  {
    if |widths| == 0 then s == []
    else
      var w := widths[0];
      |s| >= w && AllLowerHex(s[..w]) &&
      if |widths| == 1 then |s| == w
      else |s| > w && s[w] == '-' && MatchesGroups(s[w + 1..], widths[1..])
  }

  /** The `isValidUserId` test of both the service and the controller. */
  predicate IsValidUserId(s: string) {
    MatchesGroups(s, GroupWidths)
  }

  /** Positions of the four hyphens in a well-formed identifier. */
  predicate IsHyphenPosition(i: int) {
    i == 8 || i == 13 || i == 18 || i == 23
  }

  /** The shape stated position by position, independently of the matcher. */
  predicate HasCanonicalShape(s: string) {
    |s| == 36 &&
    forall i | 0 <= i < |s| :: if IsHyphenPosition(i) then s[i] == '-' else IsLowerHexDigit(s[i])
  }

  /** One group followed by a hyphen: unfolding helper for the proof below. */
  lemma MatchesGroupsStep(s: string, widths: seq<nat>)
    requires |widths| >= 2
    ensures MatchesGroups(s, widths) <==>
      |s| > widths[0] && AllLowerHex(s[..widths[0]]) && s[widths[0]] == '-' &&
      MatchesGroups(s[widths[0] + 1..], widths[1..])
  {
  }

  /** The characters `s[lo..hi]` are all lowercase hex digits. */
  predicate HexBetween(s: string, lo: nat, hi: nat)
    requires lo <= hi <= |s|
  {
    forall i | lo <= i < hi :: IsLowerHexDigit(s[i])
  }

  /** Number of characters a match of the given groups spans. */
  function MatchSpan(widths: seq<nat>): nat {
    if |widths| == 0 then 0
    else if |widths| == 1 then widths[0]
    else widths[0] + 1 + MatchSpan(widths[1..])
  }

  /** A match covers exactly the span of its groups and hyphens. */
  lemma {:induction false} MatchLength(s: string, widths: seq<nat>)
    requires MatchesGroups(s, widths)
    ensures |s| == MatchSpan(widths)
    decreases |widths|
  {
    if |widths| >= 2 {
      MatchLength(s[widths[0] + 1..], widths[1..]);
    }
  }

  /** A hex run read as the prefix of a suffix of `s`. */
  lemma HexRunShift(s: string, off: nat, w: nat)
    requires off + w <= |s|
    ensures AllLowerHex(s[off..][..w]) <==> HexBetween(s, off, off + w)
  {
    assert forall k | 0 <= k < w :: s[off..][..w][k] == s[off + k];
  }

  /** The matcher on a 36-character string, group by group. */
  lemma MatchesByGroups(s: string)
    requires |s| == 36
    ensures IsValidUserId(s) <==>
      HexBetween(s, 0, 8) && s[8] == '-' && HexBetween(s, 9, 13) && s[13] == '-' &&
      HexBetween(s, 14, 18) && s[18] == '-' && HexBetween(s, 19, 23) && s[23] == '-' &&
      HexBetween(s, 24, 36)
  {
    var t1, t2, t3, t4 := s[9..], s[14..], s[19..], s[24..];
    assert t1[5..] == t2 && t2[5..] == t3 && t3[5..] == t4;
    assert t1[4] == s[13] && t2[4] == s[18] && t3[4] == s[23];
    MatchesGroupsStep(s, [8, 4, 4, 4, 12]);
    MatchesGroupsStep(t1, [4, 4, 4, 12]);
    MatchesGroupsStep(t2, [4, 4, 12]);
    MatchesGroupsStep(t3, [4, 12]);
    assert s[0..] == s;
    HexRunShift(s, 0, 8);
    HexRunShift(s, 9, 4);
    HexRunShift(s, 14, 4);
    HexRunShift(s, 19, 4);
    HexRunShift(s, 24, 12);
  }

  /** The group-by-group reading and the position-by-position one agree. */
  lemma GroupsArePositions(s: string)
    requires |s| == 36
    ensures HasCanonicalShape(s) <==>
      HexBetween(s, 0, 8) && s[8] == '-' && HexBetween(s, 9, 13) && s[13] == '-' &&
      HexBetween(s, 14, 18) && s[18] == '-' && HexBetween(s, 19, 23) && s[23] == '-' &&
      HexBetween(s, 24, 36)
  {
  }

  /**
   * The identifier test holds exactly when the string has 36 characters,
   * hyphens at positions 8, 13, 18 and 23, and lowercase hex everywhere else.
   */
  lemma ValidUserIdIff(s: string)
    ensures IsValidUserId(s) <==> HasCanonicalShape(s)
  {
    if IsValidUserId(s) {
      MatchLength(s, GroupWidths);
      assert MatchSpan(GroupWidths) == 36 by {
        assert GroupWidths[1..] == [4, 4, 4, 12] && GroupWidths[1..][1..] == [4, 4, 12];
        assert GroupWidths[1..][1..][1..] == [4, 12] && GroupWidths[1..][1..][1..][1..] == [12];
      }
    }
    if |s| == 36 {
      MatchesByGroups(s);
      GroupsArePositions(s);
    }
  }

  /** A hex group of the first width, a hyphen, and a match of the remaining groups. */
  lemma GroupThenRest(g: string, rest: string, widths: seq<nat>)
    requires |widths| >= 2 && |g| == widths[0] && AllLowerHex(g)
    requires MatchesGroups(rest, widths[1..])
    ensures MatchesGroups(g + "-" + rest, widths)
  {
    var s := g + "-" + rest;
    assert s[..|g|] == g && s[|g|] == '-' && s[|g| + 1..] == rest;
  }

  /** Five hex groups of widths 8, 4, 4, 4 and 12 joined by hyphens form a well-formed identifier. */
  lemma ValidFromGroups(g1: string, g2: string, g3: string, g4: string, g5: string)
    requires |g1| == 8 && |g2| == 4 && |g3| == 4 && |g4| == 4 && |g5| == 12
    requires AllLowerHex(g1) && AllLowerHex(g2) && AllLowerHex(g3) && AllLowerHex(g4) && AllLowerHex(g5)
    ensures IsValidUserId(g1 + "-" + g2 + "-" + g3 + "-" + g4 + "-" + g5)
  {
    assert g5[..12] == g5;
    assert MatchesGroups(g5, [12]);
    GroupThenRest(g4, g5, [4, 12]);
    assert [4, 4, 12][1..] == [4, 12];
    GroupThenRest(g3, g4 + "-" + g5, [4, 4, 12]);
    assert [4, 4, 4, 12][1..] == [4, 4, 12];
    GroupThenRest(g2, g3 + "-" + g4 + "-" + g5, [4, 4, 4, 12]);
    assert GroupWidths[1..] == [4, 4, 4, 12];
    GroupThenRest(g1, g2 + "-" + g3 + "-" + g4 + "-" + g5, GroupWidths);
    assert g1 + "-" + (g2 + "-" + g3 + "-" + g4 + "-" + g5) == g1 + "-" + g2 + "-" + g3 + "-" + g4 + "-" + g5;
  }

  /** An uppercase hex digit anywhere outside the hyphen positions is rejected. */
  lemma UppercaseRejected(s: string, i: nat)
    requires i < |s| && !IsHyphenPosition(i) && 'A' <= s[i] <= 'F'
    ensures !IsValidUserId(s)
  {
    ValidUserIdIff(s);
  }

  /** Every well-formed identifier is exactly 36 characters long. */
  lemma ValidUserIdLength(s: string)
    requires IsValidUserId(s)
    ensures |s| == 36 && s[8] == '-' && s[13] == '-' && s[18] == '-' && s[23] == '-'
  {
    ValidUserIdIff(s);
  }
}
