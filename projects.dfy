/** The projects section: a filter over the project list by its `featured`
    flag, and the typewriter header. */
module Projects {
  import Seqs
  import Typewriter

  /** A project, with the fields the filter reads (the descriptive text and
      links are presentation). */
  datatype Project = Project(id: nat, featured: bool)

  const AllProjects: seq<Project> := [
    Project(1, true), Project(2, true), Project(3, false),
    Project(4, false), Project(5, false), Project(6, false)
  ]

  /** The `filter` state starts at "all"; the buttons offer "all",
      "featured" and "other". */
  const InitialFilter := "all"

  const HeaderText := "A showcase of my recent work, featuring web applications, mobile apps, and creative experiments"
  const TypeDelayMs := 800
  const TypePeriodMs := 35

  function IsFeatured(p: Project): bool { p.featured }
  function IsOther(p: Project): bool { !p.featured }

  /** The `filteredProjects` expression over a project list `ps`. */
  function FilterProjects(ps: seq<Project>, filter: string): (r: seq<Project>)
    ensures filter == "all" ==> r == ps
    ensures |r| <= |ps|
  {
    if filter == "all" then ps
    else if filter == "featured" then Seqs.Filter(ps, IsFeatured)
    else Seqs.Filter(ps, IsOther)
  }

  /** The page's selection. */
  function FilteredProjects(filter: string): seq<Project>
  {
    FilterProjects(AllProjects, filter)
  }

  /** "featured" gives exactly the featured projects, any value but "all"
      and "featured" exactly the others, each in list order. */
  lemma {:induction false} FilterSelects(ps: seq<Project>, filter: string)
    requires filter != "all"
    ensures var r := FilterProjects(ps, filter);
      && Seqs.IsSubsequence(r, ps)
      && (forall i :: 0 <= i < |r| ==> r[i].featured == (filter == "featured"))
      && (forall i :: 0 <= i < |ps| && ps[i].featured == (filter == "featured") ==> ps[i] in r)
  {
    if filter == "featured" {
      Seqs.FilterMembers(ps, IsFeatured);
    } else {
      Seqs.FilterMembers(ps, IsOther);
    }
  }

  /** "featured" and "other" split the list: no project in both, and every
      project in exactly one. */
  lemma {:induction false} FeaturedOtherPartition(ps: seq<Project>)
    ensures multiset(FilterProjects(ps, "featured")) + multiset(FilterProjects(ps, "other")) == multiset(ps)
    ensures |FilterProjects(ps, "featured")| + |FilterProjects(ps, "other")| == |ps|
    ensures multiset(FilterProjects(ps, "featured")) !! multiset(FilterProjects(ps, "other"))
  {
    Seqs.FilterPartition(ps, IsFeatured, IsOther);
    FilterSelects(ps, "featured");
    FilterSelects(ps, "other");
    var f, o := FilterProjects(ps, "featured"), FilterProjects(ps, "other");
    forall x | x in multiset(f)
      ensures x !in multiset(o)
    {
      assert x in f && x.featured;
    }
  }

  /** On this page: two featured projects and four others. */
  lemma {:induction false} PageCounts()
    ensures FilteredProjects(InitialFilter) == AllProjects
    ensures FilteredProjects("featured") == AllProjects[..2]
    ensures |FilteredProjects("other")| == 4
  {
    var e := AllProjects;
    assert e[5..][1..] == [];
    assert Seqs.Filter(e[5..], IsFeatured) == [];
    assert e[4..][1..] == e[5..];
    assert Seqs.Filter(e[4..], IsFeatured) == [];
    assert e[3..][1..] == e[4..];
    assert Seqs.Filter(e[3..], IsFeatured) == [];
    assert e[2..][1..] == e[3..];
    assert Seqs.Filter(e[2..], IsFeatured) == [];
    assert e[1..][1..] == e[2..];
    assert Seqs.Filter(e, IsFeatured) == [e[0], e[1]];
    FeaturedOtherPartition(e);
  }

  /** The header of this section. */
  method HeaderReveal() returns (r: Typewriter.Reveal)
    ensures fresh(r) && r.Valid() && r.State() == Typewriter.Start
    ensures r.text == HeaderText && r.delayMs == TypeDelayMs && r.periodMs == TypePeriodMs
  {
    r := new Typewriter.Reveal(HeaderText, TypeDelayMs, TypePeriodMs);
  }

  /** This header finishes after `|HeaderText| + 2` ticks, showing all of it. */
  lemma HeaderRevealCompletes(s: Typewriter.RevealState)
    requires Typewriter.Consistent(s, HeaderText) && s.phase == Typewriter.Typing(0)
    ensures Typewriter.Ticks(s, HeaderText, |HeaderText| + 2).displayed == HeaderText
  {
    Typewriter.RevealCompletes(s, HeaderText, 0);
  }
}
