/** Rows of the `events` table, already resolved to a canonical person. */
module Events {
  import opened Basics

  /** `at` is in milliseconds. Text and numeric properties live in separate bags; columns always exist. */
  datatype Event = Event(id: string, person: string, name: string, at: int,
                         properties: map<string, string>, numbers: map<string, real>, columns: map<string, string>)

  /** Rows come back in time order, which is the order `windowFunnel` walks them in. */
  ghost predicate Sorted(rows: seq<Event>) {
    forall i, j :: 0 <= i < j < |rows| ==> rows[i].at <= rows[j].at
  }

  ghost function Everyone(table: seq<Event>): set<string> { set e | e in table :: e.person }

  lemma {:induction false} SubseqSorted(c: seq<Event>, rows: seq<Event>)
    requires Sorted(rows) && Subseq(c, rows)
    ensures Sorted(c)
  {
    if c != [] {
      assert Sorted(rows[1..]);
      if c[0] == rows[0] && Subseq(c[1..], rows[1..]) {
        SubseqSorted(c[1..], rows[1..]);
        SubseqMembers(c[1..], rows[1..]);
        forall j | 0 < j < |c| ensures c[0].at <= c[j].at {
          assert c[j] == c[1..][j - 1] && c[j] in rows[1..];
        }
        forall i, j | 0 <= i < j < |c| ensures c[i].at <= c[j].at {
          if i > 0 { assert c[i] == c[1..][i - 1] && c[j] == c[1..][j - 1]; }
        }
      } else {
        SubseqSorted(c, rows[1..]);
      }
    }
  }
}
