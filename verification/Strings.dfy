/** The length of a note once surrounding blanks are dropped. */
module Strings {
  /** White space and line terminators as the runtime's trim knows them. */
  predicate Blank(c: char) {
    var u := c as int;
    || 0x09 <= u <= 0x0D || u == 0x20 || u == 0xA0 || u == 0x1680 || 0x2000 <= u <= 0x200A
    || u == 0x2028 || u == 0x2029 || u == 0x202F || u == 0x205F || u == 0x3000 || u == 0xFEFF
  }

  function TrimmedLength(s: string): nat {
    if s == [] then 0
    else if Blank(s[0]) then TrimmedLength(s[1..])
    else if Blank(s[|s| - 1]) then TrimmedLength(s[..|s| - 1])
    else |s|
  }

  /** What is left lies between blanks, and neither begins nor ends with one. */
  ghost predicate Trims(s: string, from: nat, to: nat) {
    && from <= to <= |s|
    && (forall i :: 0 <= i < from || to <= i < |s| ==> Blank(s[i]))
    && (from < to ==> !Blank(s[from]) && !Blank(s[to - 1]))
  }

  /** Wherever that part lies, it has the trimmed length. */
  lemma {:induction false} TrimsLength(s: string, from: nat, to: nat)
    requires Trims(s, from, to)
    ensures TrimmedLength(s) == to - from
  {
    if s != [] && Blank(s[0]) {
      if from == 0 {
        assert to == 0;
        assert forall i :: 0 <= i < |s[1..]| ==> s[1..][i] == s[i + 1];
        TrimsLength(s[1..], 0, 0);
      } else {
        assert forall i :: 0 <= i < |s[1..]| ==> s[1..][i] == s[i + 1];
        TrimsLength(s[1..], from - 1, to - 1);
      }
    } else if s != [] && Blank(s[|s| - 1]) {
      assert to < |s|;
      TrimsLength(s[..|s| - 1], from, to);
    }
  }

  lemma {:induction false} TrimmedMeans(s: string) returns (from: nat, to: nat)
    ensures Trims(s, from, to) && TrimmedLength(s) == to - from
  {
    if s == [] {
      from, to := 0, 0;
    } else if Blank(s[0]) {
      from, to := TrimmedMeans(s[1..]);
      from, to := from + 1, to + 1;
      assert forall i :: 0 < i < |s| ==> s[i] == s[1..][i - 1];
    } else if Blank(s[|s| - 1]) {
      from, to := TrimmedMeans(s[..|s| - 1]);
    } else {
      from, to := 0, |s|;
    }
  }
}
