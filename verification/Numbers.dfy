/** Bounds of finite sets of numbers. */
module Numbers {
  lemma {:induction false} Largest(s: set<nat>) returns (m: nat)
    requires s != {}
    ensures m in s && forall u :: u in s ==> u <= m
    decreases |s|
  {
    m :| m in s;
    if s != {m} {
      assert forall u :: u in s ==> u == m || u in s - {m};
      var m' := Largest(s - {m});
      if m < m' { m := m'; }
    }
  }

  lemma Unused(s: set<nat>) returns (n: nat)
    ensures n !in s
  {
    n := 0;
    if s != {} {
      var m := Largest(s);
      n := m + 1;
    }
  }
}
