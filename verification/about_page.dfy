/**
 * The About page: skills grouped under their category with an icon per
 * category, and a short list of certifications with a "+N more" badge.
 */
module AboutPage {
  import opened Wrappers
  import opened Strings
  import opened Seqs
  import opened Json

  /**
   * The key a skill is grouped under: its `category` as an object key, that
   * is its text, the decimal form of a number, "true", "false" or "null",
   * and "undefined" when there is none.
   */
  function CategoryKey(skill: Record): string {
    if "category" !in skill then "undefined"
    else match skill["category"]
      case Str(s) => s
      case Num(n) => IntToString(n)
      case Bool(b) => if b then "true" else "false"
      case Null => "null"
      case Date(_) => "undefined"
      case InvalidDate => "Invalid Date"
  }

  function InCategory(c: string): Record -> bool {
    (r: Record) => CategoryKey(r) == c
  }

  /** The categories that occur among the skills. */
  function Categories(skills: seq<Record>): set<string> {
    set i | 0 <= i < |skills| :: CategoryKey(skills[i])
  }

  /** The grouping: one entry per occurring category, holding that category's skills in input order. */
  function Grouped(skills: seq<Record>): map<string, seq<Record>> {
    map c | c in Categories(skills) :: Filter(skills, InCategory(c))
  }

  lemma CategoriesPush(skills: seq<Record>, skill: Record)
    ensures Categories(skills + [skill]) == Categories(skills) + {CategoryKey(skill)}
  {
    var all := skills + [skill];
    forall c | c in Categories(all) ensures c in Categories(skills) + {CategoryKey(skill)} {
      var i :| 0 <= i < |all| && CategoryKey(all[i]) == c;
      if i < |skills| {
        assert all[i] == skills[i];
      }
    }
    forall c | c in Categories(skills) ensures c in Categories(all) {
      var i :| 0 <= i < |skills| && CategoryKey(skills[i]) == c;
      assert all[i] == skills[i];
    }
    assert all[|skills|] == skill;
  }

  lemma FilterPush(skills: seq<Record>, skill: Record, c: string)
    ensures Filter(skills + [skill], InCategory(c)) ==
      Filter(skills, InCategory(c)) + (if c == CategoryKey(skill) then [skill] else [])
  {
    FilterAppend(skills, [skill], InCategory(c));
    assert Filter([skill], InCategory(c)) ==
      (if InCategory(c)(skill) then [skill] else []) + Filter([skill][1..], InCategory(c));
  }

  lemma AbsentCategoryEmpty(skills: seq<Record>, c: string)
    requires c !in Categories(skills)
    ensures Filter(skills, InCategory(c)) == []
  {
    forall i | 0 <= i < |skills| ensures !InCategory(c)(skills[i]) {
      assert CategoryKey(skills[i]) in Categories(skills);
    }
    FilterNone(skills, InCategory(c));
  }

  /**
   * Pushing one more skill appends it to its own category's group, opening
   * the group if needed, and leaves every other group as it was.
   */
  lemma GroupedPush(skills: seq<Record>, skill: Record)
    ensures var groups := Grouped(skills);
      var key := CategoryKey(skill);
      Grouped(skills + [skill]) == groups[key := (if key in groups then groups[key] else []) + [skill]]
  {
    var groups := Grouped(skills);
    var key := CategoryKey(skill);
    var expected := groups[key := (if key in groups then groups[key] else []) + [skill]];
    var after := Grouped(skills + [skill]);
    CategoriesPush(skills, skill);
    assert after.Keys == expected.Keys;
    forall c | c in after ensures after[c] == expected[c] {
      FilterPush(skills, skill, c);
      if c == key && key !in groups {
        AbsentCategoryEmpty(skills, c);
      }
    }
  }

  lemma GroupedStep(all: seq<Record>, i: nat)
    requires i < |all|
    ensures var groups := Grouped(all[..i]);
      var key := CategoryKey(all[i]);
      Grouped(all[..i + 1]) == groups[key := (if key in groups then groups[key] else []) + [all[i]]]
  {
    assert all[..i + 1] == all[..i] + [all[i]];
    GroupedPush(all[..i], all[i]);
  }

  /**
   * `skillsByCategory`: the reduce that opens a group for an unseen category
   * and pushes each skill onto its group.  With no skills loaded the
   * grouping is empty.
   */
  method GroupSkills(skills: Option<seq<Record>>) returns (groups: map<string, seq<Record>>)
    ensures skills.None? ==> groups == map[]
    ensures skills.Some? ==> groups == Grouped(skills.value)
  {
    groups := map[];
    if skills.None? {
      return;
    }
    var all := skills.value;
    var i := 0;
    while i < |all|
      invariant 0 <= i <= |all|
      invariant groups == Grouped(all[..i])
    {
      var skill := all[i];
      var key := CategoryKey(skill);
      GroupedStep(all, i);
      if key !in groups {
        groups := groups[key := []];
      }
      groups := groups[key := groups[key] + [skill]];
      i := i + 1;
    }
    assert all[..i] == all;
  }

  /**
   * Every skill appears in the group of its own category and in no other,
   * and there is a group only for a category some skill has.
   */
  lemma {:induction false} EachSkillInItsOwnGroup(skills: seq<Record>)
    ensures forall i :: 0 <= i < |skills| ==>
      CategoryKey(skills[i]) in Grouped(skills) && skills[i] in Grouped(skills)[CategoryKey(skills[i])]
    ensures forall c, r :: c in Grouped(skills) && r in Grouped(skills)[c] ==> CategoryKey(r) == c && r in skills
    ensures forall c :: c in Grouped(skills) ==> |Grouped(skills)[c]| > 0
  {
    forall c | c in Categories(skills) {
      FilterMembers(skills, InCategory(c));
    }
    forall i | 0 <= i < |skills| ensures skills[i] in Grouped(skills)[CategoryKey(skills[i])] {
      assert CategoryKey(skills[i]) in Categories(skills);
    }
    forall c | c in Grouped(skills) ensures |Grouped(skills)[c]| > 0 {
      var i :| 0 <= i < |skills| && CategoryKey(skills[i]) == c;
      assert skills[i] in Grouped(skills)[c];
    }
  }

  datatype Icon = Code | Brain | Cloud | Database

  predicate MlCategory(c: string) {
    Contains(c, "ml") || Contains(c, "ai")
  }

  predicate CloudCategory(c: string) {
    Contains(c, "cloud") || Contains(c, "devops")
  }

  predicate DatabaseCategory(c: string) {
    Contains(c, "database") || Contains(c, "tools")
  }

  /**
   * `getIconForCategory`: the lower-cased category is tested for
   * "programming", then machine learning, cloud and database words; the
   * first test that passes picks the icon, and the code icon is the default.
   */
  function IconForCategory(category: string): (icon: Icon)
    ensures icon == Brain <==>
      !Contains(ToLower(category), "programming") && MlCategory(ToLower(category))
    ensures icon == Cloud <==>
      !Contains(ToLower(category), "programming") && !MlCategory(ToLower(category)) && CloudCategory(ToLower(category))
    ensures icon == Database <==>
      !Contains(ToLower(category), "programming") && !MlCategory(ToLower(category)) &&
      !CloudCategory(ToLower(category)) && DatabaseCategory(ToLower(category))
    ensures Contains(ToLower(category), "programming") ==> icon == Code
  {
    var c := ToLower(category);
    if Contains(c, "programming") then Code
    else if MlCategory(c) then Brain
    else if CloudCategory(c) then Cloud
    else if DatabaseCategory(c) then Database
    else Code
  }

  /** A category naming both programming and AI gets the code icon: "programming" is tested first. */
  lemma ProgrammingWinsOverAi()
    ensures IconForCategory("AI Programming") == Code
  {
    var c := ToLower("AI Programming");
    assert c == "ai programming";
    assert c[3..3 + |"programming"|] == "programming";
    ContainsAt(c, "programming", 3);
  }

  /**
   * The certification list: the first three certifications, and a
   * "+N more certifications" badge with N the number left out exactly when
   * there are more than three.
   */
  function CertificationPreview(certifications: Option<seq<Record>>): (p: Preview<Record>)
    ensures certifications.None? ==> p == Preview([], None)
    ensures certifications.Some? ==>
      |p.shown| <= 3 && |p.shown| <= |certifications.value| && p.shown == certifications.value[..|p.shown|]
    ensures certifications.Some? && |certifications.value| <= 3 ==> p.shown == certifications.value
    ensures certifications.Some? ==> (p.more.Some? <==> |certifications.value| > 3)
    ensures p.more.Some? ==> |p.shown| == 3 && p.more.value == |certifications.value| - 3
  {
    if certifications.None? then Preview([], None) else PreviewOf(certifications.value, 3)
  }
}
