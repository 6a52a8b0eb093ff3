/** The skills section: the table of skill levels drawn as percentage bars,
    and the typewriter header. */
module Skills {
  import Typewriter

  datatype Skill = Skill(name: string, level: int)
  datatype SkillCategory = SkillCategory(title: string, skills: seq<Skill>)

  const SkillCategories: seq<SkillCategory> := [
    SkillCategory("Programming Languages", [
      Skill("JavaScript", 85), Skill("Python", 80), Skill("Java", 75), Skill("C++", 70), Skill("HTML/CSS", 90)]),
    SkillCategory("Frameworks & Libraries", [
      Skill("React", 80), Skill("Node.js", 75), Skill("Express.js", 70), Skill("Django", 65), Skill("Bootstrap", 80)]),
    SkillCategory("Databases", [
      Skill("MySQL", 75), Skill("PostgreSQL", 70), Skill("MongoDB", 65), Skill("SQLite", 80)]),
    SkillCategory("Development Tools", [
      Skill("Git & GitHub", 85), Skill("VS Code", 90), Skill("Docker", 60), Skill("Linux", 70)]),
    SkillCategory("Core Skills", [
      Skill("Problem Solving", 90), Skill("Data Structures", 85), Skill("Algorithms", 80), Skill("Software Design", 75)]),
    SkillCategory("Other", [
      Skill("API Development", 75), Skill("Testing", 70), Skill("Agile/Scrum", 65), Skill("Documentation", 80)])
  ]

  const HeaderText := "A comprehensive toolkit of technologies and skills I use to bring ideas to life"
  const TypeDelayMs := 800
  const TypePeriodMs := 35

  /** A level is usable as the bar's percentage width. */
  predicate IsPercentage(level: int)
  {
    0 <= level <= 100
  }

  /** Every level of the table is a percentage. */
  lemma LevelsArePercentages()
    ensures forall c, k :: 0 <= c < |SkillCategories| && 0 <= k < |SkillCategories[c].skills| ==>
              IsPercentage(SkillCategories[c].skills[k].level)
  {
  }

  /** The header of this section. */
  method HeaderReveal() returns (r: Typewriter.Reveal)
    ensures fresh(r) && r.Valid() && r.State() == Typewriter.Start
    ensures r.text == HeaderText && r.delayMs == TypeDelayMs && r.periodMs == TypePeriodMs
  {
    r := new Typewriter.Reveal(HeaderText, TypeDelayMs, TypePeriodMs);
  }

  /** This header finishes after `|HeaderText| + 2` ticks, showing all of it. */
  lemma HeaderRevealCompletes(s: Typewriter.RevealState)
    requires Typewriter.Consistent(s, HeaderText) && s.phase == Typewriter.Typing(0)
    ensures Typewriter.Ticks(s, HeaderText, |HeaderText| + 2).displayed == HeaderText
  {
    Typewriter.RevealCompletes(s, HeaderText, 0);
  }
}
