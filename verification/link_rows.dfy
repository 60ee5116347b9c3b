/** `logSiteLinks`: the rows of the `hs open list` table, a header followed
    by one row per link in ascending shortcut order. */
module LinkRows {
  import opened Wrappers
  import opened Strings
  import opened Links

  /** No later link sorts before an earlier one under the comparator
      `(a, b) => a.shortcut < b.shortcut ? -1 : 1`. */
  predicate Ascending(s: seq<Link>)
  {
    forall i, j :: 0 <= i < j < |s| ==> !Less(s[j].shortcut, s[i].shortcut)
  }

  /** Nothing in `s` sorts before `x`. */
  predicate NoneBefore(s: seq<Link>, x: Link)
  {
    forall e <- s :: !Less(e.shortcut, x.shortcut)
  }

  /** Insert `x` in front of the first link it sorts before. */
  function Insert(x: Link, s: seq<Link>): (r: seq<Link>)
    requires Ascending(s)
    ensures multiset(r) == multiset(s) + multiset{x}
    ensures Ascending(r)
    decreases |s|
  {
    if |s| == 0 then [x]
    else if Less(x.shortcut, s[0].shortcut) then
      InsertFront(x, s);
      [x] + s
    else
      var rest := Insert(x, s[1..]);
      assert s == [s[0]] + s[1..];
      InsertBehind(s[0], x, s[1..], rest);
      [s[0]] + rest
  }

  /** `x` before `s` is ascending when `x` sorts before the head of `s`. */
  lemma InsertFront(x: Link, s: seq<Link>)
    requires Ascending(s) && |s| > 0 && Less(x.shortcut, s[0].shortcut)
    ensures Ascending([x] + s)
  {
    forall j | 0 < j < |[x] + s|
      ensures !Less(([x] + s)[j].shortcut, x.shortcut)
    {
      var e := s[j - 1];
      if Less(e.shortcut, x.shortcut) {
        LessTransitive(e.shortcut, x.shortcut, s[0].shortcut);
        if j - 1 == 0 {
          LessIrreflexive(e.shortcut);
        }
      }
    }
  }

  /** `h` before the insertion of `x` into the rest is ascending when `x`
      does not sort before `h`. */
  lemma InsertBehind(h: Link, x: Link, s: seq<Link>, rest: seq<Link>)
    requires Ascending([h] + s) && Ascending(rest)
    requires !Less(x.shortcut, h.shortcut)
    requires multiset(rest) == multiset(s) + multiset{x}
    ensures Ascending([h] + rest)
  {
    forall e <- rest
      ensures !Less(e.shortcut, h.shortcut)
    {
      assert e in multiset(rest);
      if e != x {
        assert e in multiset(s);
        var k :| 0 <= k < |s| && s[k] == e;
        assert ([h] + s)[0] == h && ([h] + s)[k + 1] == e;
      }
    }
    forall i, j | 0 <= i < j < |[h] + rest|
      ensures !Less(([h] + rest)[j].shortcut, ([h] + rest)[i].shortcut)
    {
      if i == 0 {
        assert ([h] + rest)[j] == rest[j - 1];
        assert rest[j - 1] in rest;
      }
    }
  }

  /** The rows' order: the links sorted by shortcut. */
  function SortByShortcut(links: seq<Link>): (sorted: seq<Link>)
    ensures multiset(sorted) == multiset(links)
    ensures Ascending(sorted)
    decreases |links|
  {
    if |links| == 0 then []
    else
      assert links == [links[0]] + links[1..];
      Insert(links[0], SortByShortcut(links[1..]))
  }

  /** Sorting is determined: two ascending arrangements of the same links
      with distinct shortcuts are equal. Any correct sort, whatever its
      algorithm, therefore yields the rows `SortByShortcut` yields. */
  lemma {:induction false} AscendingPermutationUnique(a: seq<Link>, b: seq<Link>)
    requires multiset(a) == multiset(b)
    requires Ascending(a) && Ascending(b) && DistinctShortcuts(a)
    ensures a == b
    decreases |a|
  {
    assert |a| == |multiset(a)| == |multiset(b)| == |b|;
    if |a| > 0 {
      SameHead(a, b);
      TailMultiset(a);
      TailMultiset(b);
      TailOrdered(a);
      TailOrdered(b);
      AscendingPermutationUnique(a[1..], b[1..]);
      assert a == [a[0]] + a[1..] && b == [b[0]] + b[1..];
    }
  }

  lemma TailMultiset(a: seq<Link>)
    requires |a| > 0
    ensures multiset(a[1..]) == multiset(a) - multiset{a[0]}
  {
    assert a == [a[0]] + a[1..];
  }

  lemma TailOrdered(a: seq<Link>)
    requires |a| > 0
    ensures Ascending(a) ==> Ascending(a[1..])
    ensures DistinctShortcuts(a) ==> DistinctShortcuts(a[1..])
  {
  }

  /** A link of an insertion is the inserted one or one of the old ones. */
  lemma MemberOfInsertion(e: Link, x: Link, s: seq<Link>, rest: seq<Link>)
    requires multiset(rest) == multiset(s) + multiset{x} && e in rest
    ensures e == x || e in s
  {
    assert e in multiset(rest);
  }

  /** Two non-empty ascending arrangements of the same links with distinct
      shortcuts start with the same link. */
  lemma SameHead(a: seq<Link>, b: seq<Link>)
    requires |a| > 0 && |b| > 0 && multiset(a) == multiset(b)
    requires Ascending(a) && Ascending(b) && DistinctShortcuts(a)
    ensures a[0] == b[0]
  {
    assert a[0] in multiset(b) && b[0] in multiset(a);
    var k :| 0 <= k < |b| && b[k] == a[0];
    var m :| 0 <= m < |a| && a[m] == b[0];
    if a[0] != b[0] {
      assert !Less(b[k].shortcut, b[0].shortcut);
      assert !Less(a[m].shortcut, a[0].shortcut);
      if a[0].shortcut != b[0].shortcut {
        LessTotal(a[0].shortcut, b[0].shortcut);
      }
    }
  }

  /** With distinct shortcuts an ascending sequence is strictly ascending. */
  lemma StrictlyAscending(s: seq<Link>)
    requires Ascending(s) && DistinctShortcuts(s)
    ensures forall i, j :: 0 <= i < j < |s| ==> Less(s[i].shortcut, s[j].shortcut)
  {
    forall i, j | 0 <= i < j < |s|
      ensures Less(s[i].shortcut, s[j].shortcut)
    {
      LessTotal(s[i].shortcut, s[j].shortcut);
    }
  }

  // ---------------------------------------------------------------------
  // Rows

  /** The header row, without the bold styling of the terminal. */
  const Header: seq<string> := ["Shortcut", "", "Url"]

  /** The label text between the shortcut and the alias. */
  const AliasLabel: string := " [alias: "

  /** The alias a row shows: JavaScript's `l.alias ? ... : ''` hides a
      missing or empty alias. */
  function ShownAlias(l: Link): Option<string>
  {
    if Truthy(l.alias) then l.alias else None
  }

  /** The first cell of a link's row: the shortcut, then the alias label
      when there is an alias to show. */
  function FirstCell(l: Link): string
  {
    match ShownAlias(l)
    case Some(a) => l.shortcut + AliasLabel + a + "]"
    case None => l.shortcut
  }

  /** A link's row: first cell, arrow, URL. */
  function Row(l: Link): seq<string>
  {
    [FirstCell(l), "=>", l.url]
  }

  /** The index of the first space in `s`, or `|s|` when there is none. */
  function SpaceIndex(s: string): (k: nat)
    ensures k <= |s|
    ensures ' ' !in s[..k]
    ensures k < |s| ==> s[k] == ' '
    decreases |s|
  {
    if |s| == 0 then 0
    else if s[0] == ' ' then 0
    else
      var k := SpaceIndex(s[1..]);
      assert s[..k + 1] == [s[0]] + s[1..][..k];
      k + 1
  }

  /** Read a first cell back into its shortcut and the alias it shows. */
  function ParseFirstCell(cell: string): (string, Option<string>)
  {
    var k := SpaceIndex(cell);
    var rest := cell[k..];
    if |rest| > |AliasLabel| && rest[..|AliasLabel|] == AliasLabel && rest[|rest| - 1] == ']' then
      (cell[..k], Some(rest[|AliasLabel|..|rest| - 1]))
    else
      (cell, None)
  }

  /** The first cell of a link whose shortcut has no space reads back as
      its shortcut and its shown alias: the cell holds `[alias: X]` exactly
      when the link has an alias `X` to show. */
  lemma FirstCellRoundTrip(l: Link)
    requires ' ' !in l.shortcut
    ensures ParseFirstCell(FirstCell(l)) == (l.shortcut, ShownAlias(l))
  {
    var cell := FirstCell(l);
    SpaceIndexOfPrefix(l.shortcut, cell);
    match ShownAlias(l)
    case Some(a) =>
      var rest := AliasLabel + a + "]";
      assert cell == l.shortcut + rest;
      assert cell[|l.shortcut|..] == rest;
      assert rest[..|AliasLabel|] == AliasLabel;
      assert rest[|AliasLabel|..|rest| - 1] == a;
      assert cell[..|l.shortcut|] == l.shortcut;
    case None =>
      assert cell == l.shortcut;
      assert SpaceIndex(cell) == |cell|;
  }

  /** The first space of `s` lies after a space-free prefix `p`. */
  lemma {:induction false} SpaceIndexOfPrefix(p: string, s: string)
    requires ' ' !in p && |p| <= |s| && s[..|p|] == p
    requires |p| < |s| ==> s[|p|] == ' '
    ensures SpaceIndex(s) == |p|
    decreases |p|
  {
    if |p| > 0 {
      assert s[0] == p[0];
      assert s[1..][..|p| - 1] == p[1..];
      SpaceIndexOfPrefix(p[1..], s[1..]);
    }
  }

  /** One row per link, in the links' order. */
  function Rows(s: seq<Link>): (rows: seq<seq<string>>)
    ensures |rows| == |s|
    ensures forall i :: 0 <= i < |s| ==> rows[i] == Row(s[i])
    decreases |s|
  {
    if |s| == 0 then [] else [Row(s[0])] + Rows(s[1..])
  }

  /** `logSiteLinks`: the header, then one row per link in ascending
      shortcut order. */
  function LogSiteLinks(links: seq<Link>): (rows: seq<seq<string>>)
    ensures |rows| == |links| + 1 && rows[0] == Header
    ensures forall i :: 1 <= i < |rows| ==> |rows[i]| == 3 && rows[i][1] == "=>"
    ensures forall l <- links :: Row(l) in rows[1..]
    ensures forall i :: 1 <= i < |rows| ==> exists l <- links :: rows[i] == Row(l)
  {
    var sorted := SortByShortcut(links);
    RowsOfPermutation(links, sorted);
    [Header] + Rows(sorted)
  }

  /** The rows of a rearrangement of `links` are exactly the rows of
      `links`. */
  lemma RowsOfPermutation(links: seq<Link>, sorted: seq<Link>)
    requires multiset(sorted) == multiset(links)
    ensures |Rows(sorted)| == |links|
    ensures forall l <- links :: Row(l) in Rows(sorted)
    ensures forall i :: 0 <= i < |sorted| ==> exists l <- links :: Rows(sorted)[i] == Row(l)
  {
    var rows := Rows(sorted);
    assert |sorted| == |multiset(sorted)| == |links|;
    forall l <- links
      ensures Row(l) in rows
    {
      assert l in multiset(sorted);
      var k :| 0 <= k < |sorted| && sorted[k] == l;
      assert rows[k] == Row(l);
    }
    forall i | 0 <= i < |sorted|
      ensures exists l <- links :: rows[i] == Row(l)
    {
      assert sorted[i] in multiset(links);
      assert sorted[i] in links && rows[i] == Row(sorted[i]);
    }
  }

  /** Inserting a link whose shortcut is new keeps shortcuts distinct. */
  lemma {:induction false} InsertKeepsShortcutsDistinct(x: Link, s: seq<Link>)
    requires Ascending(s) && DistinctShortcuts(s)
    requires forall e <- s :: e.shortcut != x.shortcut
    ensures DistinctShortcuts(Insert(x, s))
    decreases |s|
  {
    if |s| > 0 && !Less(x.shortcut, s[0].shortcut) {
      var rest := Insert(x, s[1..]);
      InsertKeepsShortcutsDistinct(x, s[1..]);
      assert Insert(x, s) == [s[0]] + rest;
      forall e <- rest
        ensures e.shortcut != s[0].shortcut
      {
        MemberOfInsertion(e, x, s[1..], rest);
        if e != x {
          var k :| 0 <= k < |s[1..]| && s[1..][k] == e;
          assert s[k + 1] == e;
        }
      }
      forall i, j | 0 <= i < j < |[s[0]] + rest|
        ensures ([s[0]] + rest)[i].shortcut != ([s[0]] + rest)[j].shortcut
      {
        if i == 0 {
          assert ([s[0]] + rest)[j] == rest[j - 1];
          assert rest[j - 1] in rest;
        }
      }
    }
  }

  /** Sorting keeps shortcuts distinct. */
  lemma {:induction false} SortKeepsShortcutsDistinct(links: seq<Link>)
    requires DistinctShortcuts(links)
    ensures DistinctShortcuts(SortByShortcut(links))
    decreases |links|
  {
    if |links| > 0 {
      var tail := SortByShortcut(links[1..]);
      SortKeepsShortcutsDistinct(links[1..]);
      forall e <- tail
        ensures e.shortcut != links[0].shortcut
      {
        assert e in multiset(links[1..]);
        var k :| 0 <= k < |links[1..]| && links[1..][k] == e;
        assert links[k + 1] == e;
      }
      InsertKeepsShortcutsDistinct(links[0], tail);
    }
  }

  /** What the rows need of a table to read back unambiguously: distinct
      shortcuts without spaces. */
  predicate Printable(links: seq<Link>)
  {
    DistinctShortcuts(links) && forall l <- links :: ' ' !in l.shortcut
  }

  /** Row `i` under the header is the row of the `i`-th link in shortcut
      order. */
  lemma RowAt(links: seq<Link>, i: int)
    requires 1 <= i < |LogSiteLinks(links)|
    ensures LogSiteLinks(links)[i] == Row(SortByShortcut(links)[i - 1])
  {
    assert LogSiteLinks(links) == [Header] + Rows(SortByShortcut(links));
  }

  /** The rows under the header are strictly ascending by the shortcut
      their first cell shows. */
  lemma RowsAscending(links: seq<Link>)
    requires Printable(links)
    ensures var rows := LogSiteLinks(links);
      forall i, j :: 1 <= i < j < |rows| ==>
        Less(ParseFirstCell(rows[i][0]).0, ParseFirstCell(rows[j][0]).0)
  {
    var sorted := SortByShortcut(links);
    var rows := LogSiteLinks(links);
    SortKeepsShortcutsDistinct(links);
    StrictlyAscending(sorted);
    forall i | 1 <= i < |rows|
      ensures ParseFirstCell(rows[i][0]).0 == sorted[i - 1].shortcut
    {
      RowAt(links, i);
      assert sorted[i - 1] in multiset(links);
      assert sorted[i - 1] in links;
      FirstCellRoundTrip(sorted[i - 1]);
    }
  }

  /** `row` shows one of `links`: its shortcut, the alias it has to show,
      and its URL. */
  predicate ShowsLink(row: seq<string>, links: seq<Link>)
  {
    |row| == 3 && exists l <- links :: ParseFirstCell(row[0]) == (l.shortcut, ShownAlias(l)) && row[2] == l.url
  }

  /** Each row under the header shows one of the links. */
  lemma RowsShowLinks(links: seq<Link>)
    requires Printable(links)
    ensures var rows := LogSiteLinks(links);
      forall i :: 1 <= i < |rows| ==> ShowsLink(rows[i], links)
  {
    var rows := LogSiteLinks(links);
    forall i | 1 <= i < |rows|
      ensures ShowsLink(rows[i], links)
    {
      RowAt(links, i);
      var l := SortByShortcut(links)[i - 1];
      assert l in multiset(links);
      FirstCellRoundTrip(l);
    }
  }

  /** The rows of the site-link table: a header and fourteen rows, strictly
      ascending by shortcut, each showing a link's shortcut, its alias
      exactly when it has one, and its URL. */
  lemma SiteLinkRows(portalId: string, configuredEnv: string, o: Origins)
    ensures var links := SiteLinks(portalId, configuredEnv, o);
      var rows := LogSiteLinks(links);
      && |rows| == 15 && rows[0] == Header
      && (forall i, j :: 1 <= i < j < |rows| ==>
            Less(ParseFirstCell(rows[i][0]).0, ParseFirstCell(rows[j][0]).0))
      && (forall i :: 1 <= i < |rows| ==> ShowsLink(rows[i], links))
      && (forall l <- links :: ShownAlias(l) == l.alias)
  {
    var links := SiteLinks(portalId, configuredEnv, o);
    forall l <- links
      ensures ' ' !in l.shortcut && ShownAlias(l) == l.alias
    {
      var k :| 0 <= k < |links| && links[k] == l;
    }
    RowsAscending(links);
    RowsShowLinks(links);
  }
}
