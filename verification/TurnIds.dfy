/** Queue item ids of the session turn coordinator. */
module TurnIds {
  import opened Text

  /** `now` is the printed clock reading, `number` the coordinator's running sequence number. */
  datatype ItemId = ItemId(session: string, now: string, number: nat) {
    function Show(): string
    {
      session + ":" + now + ":" + Decimal(number)
    }
  }

  lemma {:induction false} SuffixAfterLastColon(a: string, m: string, b: string, n: string)
    requires ':' !in m && ':' !in n
    requires a + ":" + m == b + ":" + n
    ensures m == n
  {
    var s, t := a + ":" + m, b + ":" + n;
    assert s[|a|] == ':' && t[|b|] == ':';
    assert forall i :: |a| < i < |s| ==> s[i] == m[i - |a| - 1];
    assert forall i :: |b| < i < |t| ==> t[i] == n[i - |b| - 1];
    assert |a| == |b|;
    assert m == s[|a| + 1..] && n == t[|b| + 1..];
  }

  /** Ids with different sequence numbers differ, whatever the sessions and clock readings look like. */
  lemma ShownIdsDiffer(a: ItemId, b: ItemId)
    requires a.number != b.number
    ensures a.Show() != b.Show()
  {
    if a.Show() == b.Show() {
      SuffixAfterLastColon(a.session + ":" + a.now, Decimal(a.number), b.session + ":" + b.now, Decimal(b.number));
      DecimalRoundTrip(a.number);
      DecimalRoundTrip(b.number);
    }
  }

  lemma AppendFive<T>(a: seq<T>, b: seq<T>, c: seq<T>, d: seq<T>, e: seq<T>)
    ensures a + b + c + d + e == a + b + (c + d + e)
  {
  }

  /** An id names its session, its time and its number, in this order, between colons. */
  lemma ShownParts(id: ItemId)
    requires ':' !in id.session && ':' !in id.now
    ensures Split(id.Show(), ':') == [id.session, id.now, Decimal(id.number)]
  {
    var n := Decimal(id.number);
    SplitWithoutSeparator(n, ':');
    SplitAtSeparator(id.now, n, ':');
    SplitAtSeparator(id.session, id.now + [':'] + n, ':');
    AppendFive(id.session, ":", id.now, ":", n);
  }

  /** Ids in the order they were handed out. */
  ghost predicate Increasing(ids: seq<ItemId>)
  {
    forall i, j :: 0 <= i < j < |ids| ==> ids[i].number < ids[j].number
  }

  lemma IncreasingShownApart(ids: seq<ItemId>, i: nat, j: nat)
    requires Increasing(ids) && i < |ids| && j < |ids| && i != j
    ensures ids[i].Show() != ids[j].Show()
  {
    ShownIdsDiffer(ids[i], ids[j]);
  }
}
