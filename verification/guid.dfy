/**
 The client-identifier check of the service: a user id is accepted exactly when it
 matches the anchored pattern of the 8-4-4-4-12 textual form of a UUID (section 3
 of RFC 4122), with upper- or lower-case hexadecimal digits.
 */
module Guid {

  /** One character of the class `[a-fA-F0-9]`. */
  predicate IsHexDigit(c: char) {
    ('0' <= c <= '9') || ('a' <= c <= 'f') || ('A' <= c <= 'F')
  }

  predicate AllHex(s: string) {
    forall i :: 0 <= i < |s| ==> IsHexDigit(s[i])
  }

  /** Widths of the hexadecimal groups of the pattern, in order. */
  const GroupWidths: seq<nat> := [8, 4, 4, 4, 12]

  /**
   The anchored pattern `^G1-G2-...-Gn$` where group `Gi` is `[a-fA-F0-9]{widths[i]}`:
   the regular expression read group by group, with `^` and `$` meaning the start
   and end of the whole text.
   */
  predicate MatchesGroups(s: string, widths: seq<nat>)
    requires |widths| > 0
    decreases |widths|
  {
    var w := widths[0];
    && |s| >= w
    && AllHex(s[..w])
    && if |widths| == 1 then |s| == w
       else |s| > w && s[w] == '-' && MatchesGroups(s[w + 1..], widths[1..])
  }

  /** `validID`: the identifier matches the GUID pattern. */
  predicate ValidID(s: string) {
    MatchesGroups(s, GroupWidths)
  }

  /** Positions of the four separators in the canonical 36-character form. */
  predicate IsDashIndex(i: int) {
    i == 8 || i == 13 || i == 18 || i == 23
  }

  /**
   Reference definition, position by position: 36 characters, `-` at indices 8, 13,
   18 and 23, and a hexadecimal digit everywhere else.
   */
  predicate CanonicalForm(s: string) {
    && |s| == 36
    && forall i :: 0 <= i < |s| ==> if IsDashIndex(i) then s[i] == '-' else IsHexDigit(s[i])
  }

  /** The hexadecimal group of width `w` starting at offset `k` of `s`. */
  predicate HexRun(s: string, k: nat, w: nat)
    requires k + w <= |s|
  {
    forall i :: k <= i < k + w ==> IsHexDigit(s[i])
  }

  /** One group of the pattern, read at an offset: `AllHex` of a slice is a hex run of `s`. */
  lemma AllHexSlice(s: string, k: nat, w: nat)
    requires k + w <= |s|
    ensures AllHex(s[k..][..w]) <==> HexRun(s, k, w)
  {
  }

  /** The regular expression accepts exactly the canonical 36-character form. */
  lemma {:induction false} ValidIDIffCanonical(s: string)
    ensures ValidID(s) <==> CanonicalForm(s)
  {
    // Unfold the pattern group by group; each step peels one group and its separator.
    assert GroupWidths[1..] == [4, 4, 4, 12];
    assert GroupWidths[1..][1..] == [4, 4, 12];
    assert GroupWidths[1..][1..][1..] == [4, 12];
    assert GroupWidths[1..][1..][1..][1..] == [12];
    var groups :=
      |s| == 36 && s[8] == '-' && s[13] == '-' && s[18] == '-' && s[23] == '-' &&
      HexRun(s, 0, 8) && HexRun(s, 9, 4) && HexRun(s, 14, 4) && HexRun(s, 19, 4) && HexRun(s, 24, 12);
    if ValidID(s) {
      assert |s| >= 9 && s[8] == '-' && AllHex(s[..8]);
      assert s[..8] == s[0..][..8];
      AllHexSlice(s, 0, 8);
      var s1 := s[9..];
      assert MatchesGroups(s1, [4, 4, 4, 12]);
      assert |s1| >= 5 && s1[4] == '-' && AllHex(s1[..4]);
      AllHexSlice(s, 9, 4);
      var s2 := s1[5..];
      assert s2 == s[14..];
      assert MatchesGroups(s2, [4, 4, 12]);
      assert |s2| >= 5 && s2[4] == '-' && AllHex(s2[..4]);
      AllHexSlice(s, 14, 4);
      var s3 := s2[5..];
      assert s3 == s[19..];
      assert MatchesGroups(s3, [4, 12]);
      assert |s3| >= 5 && s3[4] == '-' && AllHex(s3[..4]);
      AllHexSlice(s, 19, 4);
      var s4 := s3[5..];
      assert s4 == s[24..];
      assert MatchesGroups(s4, [12]);
      assert |s4| == 12 && AllHex(s4[..12]);
      AllHexSlice(s, 24, 12);
      assert groups;
    }
    if groups {
      assert s[..8] == s[0..][..8];
      AllHexSlice(s, 0, 8);
      AllHexSlice(s, 9, 4);
      AllHexSlice(s, 14, 4);
      AllHexSlice(s, 19, 4);
      AllHexSlice(s, 24, 12);
      assert s[9..][5..] == s[14..];
      assert s[14..][5..] == s[19..];
      assert s[19..][5..] == s[24..];
      assert MatchesGroups(s[24..], [12]);
      assert MatchesGroups(s[19..], [4, 12]);
      assert MatchesGroups(s[14..], [4, 4, 12]);
      assert MatchesGroups(s[9..], [4, 4, 4, 12]);
      assert ValidID(s);
    }
    if CanonicalForm(s) {
      assert s[8] == '-' && s[13] == '-' && s[18] == '-' && s[23] == '-';
      assert groups;
    }
    if groups {
      forall i | 0 <= i < |s|
        ensures if IsDashIndex(i) then s[i] == '-' else IsHexDigit(s[i])
      {
        if !IsDashIndex(i) {
          if i < 8 { assert HexRun(s, 0, 8); }
          else if i < 13 { assert HexRun(s, 9, 4); }
          else if i < 18 { assert HexRun(s, 14, 4); }
          else if i < 23 { assert HexRun(s, 19, 4); }
          else { assert HexRun(s, 24, 12); }
        }
      }
      assert CanonicalForm(s);
    }
  }

  /** The accepted and rejected identifiers of the repository's own unit test. */
  lemma ValidIDExamples()
    ensures ValidID("3fa85f64-5717-4562-b3fc-2c963f66afa6")
    ensures !ValidID("not-a-guid")
  {
    ValidIDIffCanonical("3fa85f64-5717-4562-b3fc-2c963f66afa6");
    ValidIDIffCanonical("not-a-guid");
  }
}
