/** Splitting strings that were joined with a dash. */
module Dashes {
  ghost predicate DashFree(s: string) {
    '-' !in s
  }

  lemma FirstDash(a: string, x: string)
    requires DashFree(a)
    ensures var s := a + "-" + x;
            s[|a|] == '-' && s[..|a|] == a && s[|a| + 1..] == x && forall i :: 0 <= i < |a| ==> s[i] != '-'
  {
  }

  /** A dash-free head is determined by the joined string. */
  lemma HeadOfJoin(a: string, x: string, b: string, y: string)
    requires DashFree(a) && DashFree(b) && a + "-" + x == b + "-" + y
    ensures a == b && x == y
  {
    FirstDash(a, x);
    FirstDash(b, y);
  }
}
