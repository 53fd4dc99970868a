/** The few string operations that keys and e-mail addresses go through, on ASCII. */
module Text {

  predicate IsSpace(c: char) {
    c == ' ' || c == '\t' || c == '\n' || c == '\r'
  }

  function LowerChar(c: char): char {
    if 'A' <= c <= 'Z' then (c as int + 32) as char else c
  }

  function ToLower(s: string): (r: string)
    ensures |r| == |s|
  {
    if s == [] then [] else [LowerChar(s[0])] + ToLower(s[1..])
  }

  function TrimLeft(s: string): string {
    if s != [] && IsSpace(s[0]) then TrimLeft(s[1..]) else s
  }

  function TrimRight(s: string): string {
    if s != [] && IsSpace(s[|s| - 1]) then TrimRight(s[..|s| - 1]) else s
  }

  function TrimSpace(s: string): string {
    TrimRight(TrimLeft(s))
  }

  predicate EqualFold(a: string, b: string) {
    ToLower(a) == ToLower(b)
  }

  /** Lower-casing turns A to Z into a to z and touches nothing else. */
  lemma {:induction false} LowerCaseMeans(s: string, i: nat)
    requires i < |s|
    ensures ToLower(s)[i] == if 'A' <= s[i] <= 'Z' then 'a' + (s[i] - 'A') else s[i]
  {
    if i > 0 { LowerCaseMeans(s[1..], i - 1); }
  }

  predicate BlankChar(c: char) {
    c in " \t\n\r"
  }

  /** The blanks are the space, the tab, the line feed and the carriage return. */
  lemma SpacesAre(c: char)
    ensures IsSpace(c) <==> BlankChar(c)
  {
    assert " \t\n\r"[0] == ' ' && " \t\n\r"[1] == '\t' && " \t\n\r"[2] == '\n' && " \t\n\r"[3] == '\r';
  }

  predicate Blank(s: string) {
    forall i :: 0 <= i < |s| ==> BlankChar(s[i])
  }

  lemma BlankEnds(s: string, i: nat, j: nat)
    requires i <= j <= |s| && Blank(s[..i]) && Blank(s[j..])
    ensures forall k :: 0 <= k < i || j <= k < |s| ==> BlankChar(s[k])
  {
    hide BlankChar;
    forall k | 0 <= k < i ensures BlankChar(s[k]) { assert s[..i][k] == s[k]; }
    forall k | j <= k < |s| ensures BlankChar(s[k]) { assert s[j..][k - j] == s[k]; }
  }

  lemma BlankGrows(s: string)
    requires s != []
    ensures Blank(s[1..]) && BlankChar(s[0]) ==> Blank(s)
    ensures Blank(s[..|s| - 1]) && BlankChar(s[|s| - 1]) ==> Blank(s)
  {
    hide BlankChar;
    assert forall k :: 1 <= k < |s| ==> s[k] == s[1..][k - 1];
    assert forall k :: 0 <= k < |s| - 1 ==> s[k] == s[..|s| - 1][k];
  }

  lemma {:induction false} TrimLeftMeans(s: string) returns (i: nat)
    ensures i <= |s| && TrimLeft(s) == s[i..] && Blank(s[..i])
    ensures TrimLeft(s) == [] || !BlankChar(TrimLeft(s)[0])
  {
    hide BlankChar, IsSpace;
    i := 0;
    if s != [] {
      SpacesAre(s[0]);
      if IsSpace(s[0]) {
        i := TrimLeftMeans(s[1..]);
        assert s[1..][..i] == s[..i + 1][1..] && s[1..][i..] == s[i + 1..];
        BlankGrows(s[..i + 1]);
        i := i + 1;
      }
    }
  }

  lemma {:induction false} TrimRightMeans(s: string) returns (j: nat)
    ensures j <= |s| && TrimRight(s) == s[..j] && Blank(s[j..])
    ensures TrimRight(s) == [] || !BlankChar(TrimRight(s)[|TrimRight(s)| - 1])
  {
    hide BlankChar, IsSpace;
    j := |s|;
    if s != [] {
      var front := s[..|s| - 1];
      SpacesAre(s[|s| - 1]);
      if IsSpace(s[|s| - 1]) {
        j := TrimRightMeans(front);
        assert s[j..][..|s[j..]| - 1] == front[j..] && front[..j] == s[..j];
        BlankGrows(s[j..]);
      }
    }
  }

  /** Trimming cuts exactly the blanks at both ends. */
  lemma TrimSpaceMeans(s: string) returns (i: nat, j: nat)
    ensures i <= j <= |s| && TrimSpace(s) == s[i..j] && Blank(s[..i]) && Blank(s[j..])
    ensures TrimSpace(s) == [] || (!BlankChar(s[i]) && !BlankChar(s[j - 1]))
  {
    hide BlankChar, TrimLeft, TrimRight;
    i := TrimLeftMeans(s);
    var k := TrimRightMeans(TrimLeft(s));
    j := i + k;
    assert s[i..][k..] == s[j..] && s[i..][..k] == s[i..j];
    assert s[i..j] != [] ==> s[i..j][0] == s[i] && s[i..j][k - 1] == s[j - 1];
  }

  /** Trimmed and lower-cased: how both e-mails and action keys are compared. */
  function Normalize(s: string): string {
    ToLower(TrimSpace(s))
  }
}
