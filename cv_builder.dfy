/** The CV-builder wizard (src/pages/CVBuilder.tsx): a current step among six
    steps, the personal-information record, three ordered lists of entries
    (experiences and educations keyed by an id, languages keyed by their
    position) that always keep at least one entry, and a duplicate-free
    list of trimmed skills. The new lists are computed by the functions of
    this module; the page's state is the class `Wizard`, whose methods are
    the handlers. `Date.now()`, the source of fresh ids, is a parameter. */
module CVBuilder {
  import opened Text
  import opened Seqs

  // ---------------------------------------------------------------------
  // Steps

  datatype Step = Step(id: nat, title: string)

  /** The six steps, numbered from 1. */
  const Steps: seq<Step> := [
    Step(1, "Informations"),
    Step(2, "Expérience"),
    Step(3, "Formation"),
    Step(4, "Compétences"),
    Step(5, "Langues"),
    Step(6, "Aperçu")
  ]

  /** Step k of the list carries the id k + 1, so ids run over 1..6. */
  lemma StepIdsArePositions()
    ensures |Steps| == 6
    ensures forall k :: 0 <= k < |Steps| ==> Steps[k].id == k + 1
  {
  }

  /** `nextStep`: one step forward, except on the last step. */
  function NextStep(current: int): (n: int)
    ensures 1 <= current <= |Steps| ==> 1 <= n <= |Steps|
    ensures current < |Steps| ==> n == current + 1
    ensures current >= |Steps| ==> n == current
  {
    if current < |Steps| then current + 1 else current
  }

  /** `prevStep`: one step back, except on the first step. */
  function PrevStep(current: int): (n: int)
    ensures 1 <= current <= |Steps| ==> 1 <= n <= |Steps|
    ensures current > 1 ==> n == current - 1
    ensures current <= 1 ==> n == current
  {
    if current > 1 then current - 1 else current
  }

  /** Going forward then back returns to the same step, except from the
      last step, where going forward does nothing; and symmetrically. */
  lemma NextPrevRoundTrip(current: int)
    requires 1 <= current <= |Steps|
    ensures current < |Steps| <==> PrevStep(NextStep(current)) == current
    ensures current > 1 <==> NextStep(PrevStep(current)) == current
  {
  }

  /** How the step indicator draws a step. */
  datatype Indicator = Active | Completed | Upcoming

  function IndicatorOf(current: int, stepId: int): (i: Indicator)
    ensures i == Active <==> stepId == current
    ensures i == Completed <==> stepId < current
    ensures i == Upcoming <==> stepId > current
  {
    if current == stepId then Active
    else if current > stepId then Completed
    else Upcoming
  }

  /** On any step in range exactly one indicator is active, and the steps
      drawn as completed are exactly those before it. */
  lemma ExactlyOneActive(current: int)
    requires 1 <= current <= |Steps|
    ensures IndicatorOf(current, Steps[current - 1].id) == Active
    ensures forall k :: 0 <= k < |Steps| && k != current - 1 ==> IndicatorOf(current, Steps[k].id) != Active
    ensures forall k :: 0 <= k < |Steps| ==> (IndicatorOf(current, Steps[k].id) == Completed <==> k < current - 1)
  {
    StepIdsArePositions();
  }

  // ---------------------------------------------------------------------
  // Records and their fields

  datatype PersonalInfo = PersonalInfo(fullName: string, email: string, phone: string,
                                       location: string, linkedin: string, summary: string)

  datatype PersonalField = FullName | Email | Phone | Location | LinkedIn | Summary

  const BlankPersonalInfo := PersonalInfo("", "", "", "", "", "")

  function PersonalValue(p: PersonalInfo, f: PersonalField): string {
    match f
    case FullName => p.fullName
    case Email => p.email
    case Phone => p.phone
    case Location => p.location
    case LinkedIn => p.linkedin
    case Summary => p.summary
  }

  /** `{ ...personalInfo, [f]: v }`: field `f` becomes `v`, the others keep
      their values. */
  function SetPersonalField(p: PersonalInfo, f: PersonalField, v: string): (q: PersonalInfo)
    ensures PersonalValue(q, f) == v
    ensures forall g :: g != f ==> PersonalValue(q, g) == PersonalValue(p, g)
  {
    match f
    case FullName => p.(fullName := v)
    case Email => p.(email := v)
    case Phone => p.(phone := v)
    case Location => p.(location := v)
    case LinkedIn => p.(linkedin := v)
    case Summary => p.(summary := v)
  }

  /** A record is determined by its fields, so the contract above says all
      there is to say about an edit. */
  lemma PersonalInfoByFields(p: PersonalInfo, q: PersonalInfo)
    requires forall g :: PersonalValue(p, g) == PersonalValue(q, g)
    ensures p == q
  {
    assert PersonalValue(p, FullName) == PersonalValue(q, FullName);
    assert PersonalValue(p, Email) == PersonalValue(q, Email);
    assert PersonalValue(p, Phone) == PersonalValue(q, Phone);
    assert PersonalValue(p, Location) == PersonalValue(q, Location);
    assert PersonalValue(p, LinkedIn) == PersonalValue(q, LinkedIn);
    assert PersonalValue(p, Summary) == PersonalValue(q, Summary);
  }

  datatype Experience = Experience(id: string, company: string, position: string,
                                   startDate: string, endDate: string, description: string)

  datatype ExperienceField = Company | Position | StartDate | EndDate | Description

  function ExperienceId(e: Experience): string {
    e.id
  }

  /** The entry `addExperience` appends. */
  function BlankExperience(id: string): Experience {
    Experience(id, "", "", "", "", "")
  }

  function ExperienceValue(e: Experience, f: ExperienceField): string {
    match f
    case Company => e.company
    case Position => e.position
    case StartDate => e.startDate
    case EndDate => e.endDate
    case Description => e.description
  }

  /** `{ ...ex, [f]: v }`: the id and the other fields are kept. */
  function SetExperienceField(e: Experience, f: ExperienceField, v: string): (r: Experience)
    ensures r.id == e.id && ExperienceValue(r, f) == v
    ensures forall g :: g != f ==> ExperienceValue(r, g) == ExperienceValue(e, g)
  {
    match f
    case Company => e.(company := v)
    case Position => e.(position := v)
    case StartDate => e.(startDate := v)
    case EndDate => e.(endDate := v)
    case Description => e.(description := v)
  }

  datatype Education = Education(id: string, institution: string, degree: string,
                                 field: string, year: string)

  datatype EducationField = Institution | Degree | FieldOfStudy | Year

  function EducationId(e: Education): string {
    e.id
  }

  /** The entry `addEducation` appends. */
  function BlankEducation(id: string): Education {
    Education(id, "", "", "", "")
  }

  function EducationValue(e: Education, f: EducationField): string {
    match f
    case Institution => e.institution
    case Degree => e.degree
    case FieldOfStudy => e.field
    case Year => e.year
  }

  /** `{ ...ed, [f]: v }`: the id and the other fields are kept. */
  function SetEducationField(e: Education, f: EducationField, v: string): (r: Education)
    ensures r.id == e.id && EducationValue(r, f) == v
    ensures forall g :: g != f ==> EducationValue(r, g) == EducationValue(e, g)
  {
    match f
    case Institution => e.(institution := v)
    case Degree => e.(degree := v)
    case FieldOfStudy => e.(field := v)
    case Year => e.(year := v)
  }

  datatype LanguageEntry = LanguageEntry(language: string, level: string)

  datatype LanguageField = LanguageName | Level

  const BlankLanguage := LanguageEntry("", "")

  function LanguageValue(l: LanguageEntry, f: LanguageField): string {
    match f
    case LanguageName => l.language
    case Level => l.level
  }

  /** The assignment `updated[index].language = v` (or `.level`) on one
      entry. */
  function SetLanguageField(l: LanguageEntry, f: LanguageField, v: string): (r: LanguageEntry)
    ensures LanguageValue(r, f) == v
    ensures forall g :: g != f ==> LanguageValue(r, g) == LanguageValue(l, g)
  {
    match f
    case LanguageName => l.(language := v)
    case Level => l.(level := v)
  }

  // ---------------------------------------------------------------------
  // Lists keyed by id

  predicate Distinct<T(==)>(s: seq<T>) {
    forall i, j :: 0 <= i < j < |s| ==> s[i] != s[j]
  }

  /** The ids of the entries, in order. */
  function Keys<T>(xs: seq<T>, key: T -> string): (ks: seq<string>)
    ensures |ks| == |xs|
    ensures forall k :: 0 <= k < |xs| ==> ks[k] == key(xs[k])
  {
    seq(|xs|, k requires 0 <= k < |xs| => key(xs[k]))
  }

  /** `removeExperience(id)` / `removeEducation(id)`: nothing when a single
      entry is left; otherwise every entry whose id is `id` goes, and the
      others stay in order. */
  function RemoveKeyed<T>(xs: seq<T>, key: T -> string, id: string): (r: seq<T>)
    ensures |xs| <= 1 ==> r == xs
    ensures IsSubsequence(r, xs)
    ensures |xs| > 1 ==> forall k :: 0 <= k < |r| ==> key(r[k]) != id
    ensures forall k :: 0 <= k < |xs| && key(xs[k]) != id ==> xs[k] in r
  {
    if |xs| > 1 then Filter(xs, x => key(x) != id) else xs
  }

  /** Deleting one element of a sequence without repetitions leaves one
      without repetitions. */
  lemma DistinctWithout<T>(s: seq<T>, i: int)
    requires Distinct(s) && 0 <= i < |s|
    ensures Distinct(s[..i] + s[i + 1..])
  {
    var r := s[..i] + s[i + 1..];
    forall a, b | 0 <= a < b < |r|
      ensures r[a] != r[b]
    {
      var a' := if a < i then a else a + 1;
      var b' := if b < i then b else b + 1;
      assert r[a] == s[a'] && r[b] == s[b'];
    }
  }

  /** With distinct ids, no entry but the `i`-th carries its id. */
  lemma OnlyOneCarries<T>(xs: seq<T>, key: T -> string, i: int, k: int)
    requires Distinct(Keys(xs, key)) && 0 <= i < |xs| && 0 <= k < |xs| && k != i
    ensures key(xs[k]) != key(xs[i])
  {
    var ks := Keys(xs, key);
    if k < i {
      assert ks[k] != ks[i];
    } else {
      assert ks[i] != ks[k];
    }
  }

  /** With distinct ids, removing the id of entry `i` out of several drops
      exactly that entry: one fewer, at least one left, the rest in order
      and still with distinct ids. */
  lemma RemoveKeyedDropsOne<T>(xs: seq<T>, key: T -> string, i: int)
    requires |xs| > 1 && 0 <= i < |xs| && Distinct(Keys(xs, key))
    ensures RemoveKeyed(xs, key, key(xs[i])) == xs[..i] + xs[i + 1..]
    ensures |RemoveKeyed(xs, key, key(xs[i]))| == |xs| - 1 >= 1
    ensures Distinct(Keys(RemoveKeyed(xs, key, key(xs[i])), key))
  {
    var id := key(xs[i]);
    var keep := x => key(x) != id;
    forall k | 0 <= k < |xs| && k != i
      ensures keep(xs[k])
    {
      OnlyOneCarries(xs, key, i, k);
    }
    FilterDropsOne(xs, keep, i);
    DistinctWithout(Keys(xs, key), i);
    KeysWithout(xs, key, i);
  }

  /** The ids of a list with entry `i` deleted are its ids with the `i`-th
      deleted. */
  lemma KeysWithout<T>(xs: seq<T>, key: T -> string, i: int)
    requires 0 <= i < |xs|
    ensures Keys(xs[..i] + xs[i + 1..], key) == Keys(xs, key)[..i] + Keys(xs, key)[i + 1..]
  {
    var ys := xs[..i] + xs[i + 1..];
    var ks := Keys(xs, key);
    forall k | 0 <= k < |ys|
      ensures Keys(ys, key)[k] == (ks[..i] + ks[i + 1..])[k]
    {
      if k < i {
        assert ys[k] == xs[k];
      } else {
        assert ys[k] == xs[k + 1];
      }
    }
  }

  /** Removing an id no entry carries changes nothing. */
  lemma RemoveKeyedAbsent<T>(xs: seq<T>, key: T -> string, id: string)
    requires id !in Keys(xs, key)
    ensures RemoveKeyed(xs, key, id) == xs
  {
    if |xs| > 1 {
      forall k | 0 <= k < |xs|
        ensures key(xs[k]) != id
      {
        assert Keys(xs, key)[k] == key(xs[k]);
      }
      FilterKeepsAll(xs, x => key(x) != id);
    }
  }

  /** Appending an entry with a fresh id and then removing that id gives
      back the list. */
  lemma AppendThenRemove<T>(xs: seq<T>, key: T -> string, x: T)
    requires |xs| >= 1 && key(x) !in Keys(xs, key)
    ensures RemoveKeyed(xs + [x], key, key(x)) == xs
  {
    var ys := xs + [x];
    var keep := y => key(y) != key(x);
    forall k | 0 <= k < |ys| && k != |xs|
      ensures keep(ys[k])
    {
      assert Keys(xs, key)[k] == key(xs[k]);
    }
    FilterDropsOne(ys, keep, |xs|);
    assert ys[..|xs|] + ys[|xs| + 1..] == xs;
  }

  /** Without distinct ids the guard does not keep an entry: two entries
      sharing an id (two `Date.now()` readings in the same millisecond)
      are removed together, leaving the list empty. */
  lemma SharedIdEmptiesList<T>(x: T, y: T, key: T -> string)
    requires key(x) == key(y)
    ensures RemoveKeyed([x, y], key, key(x)) == []
  {
    var keep := z => key(z) != key(x);
    assert [x, y][1..] == [y];
    assert Filter([y], keep) == Filter([y][1..], keep);
  }

  /** Appending an entry whose id is fresh keeps the ids distinct. */
  lemma AppendKeepsDistinct<T>(xs: seq<T>, key: T -> string, x: T)
    requires Distinct(Keys(xs, key)) && key(x) !in Keys(xs, key)
    ensures Distinct(Keys(xs + [x], key))
  {
    var ks := Keys(xs + [x], key);
    forall a, b | 0 <= a < b < |ks|
      ensures ks[a] != ks[b]
    {
      assert ks[a] == Keys(xs, key)[a];
      if b < |xs| {
        assert ks[b] == Keys(xs, key)[b];
      }
    }
  }

  /** The per-id field update `xs.map(x => x.id === id ? edit(x) : x)`. */
  function EditKeyed<T>(xs: seq<T>, key: T -> string, id: string, edit: T -> T): (ys: seq<T>)
    ensures |ys| == |xs|
    ensures forall k :: 0 <= k < |xs| && key(xs[k]) != id ==> ys[k] == xs[k]
    ensures forall k :: 0 <= k < |xs| && key(xs[k]) == id ==> ys[k] == edit(xs[k])
  {
    seq(|xs|, k requires 0 <= k < |xs| => if key(xs[k]) == id then edit(xs[k]) else xs[k])
  }

  /** With distinct ids, editing the entry that carries `id` replaces that
      entry alone, in place. */
  lemma EditKeyedTouchesOne<T>(xs: seq<T>, key: T -> string, edit: T -> T, i: int)
    requires 0 <= i < |xs| && Distinct(Keys(xs, key))
    ensures EditKeyed(xs, key, key(xs[i]), edit) == xs[i := edit(xs[i])]
  {
    var ys := EditKeyed(xs, key, key(xs[i]), edit);
    forall k | 0 <= k < |xs| && k != i
      ensures ys[k] == xs[k]
    {
      if k < i {
        assert Keys(xs, key)[k] != Keys(xs, key)[i];
      } else {
        assert Keys(xs, key)[i] != Keys(xs, key)[k];
      }
    }
  }

  /** Editing by an id no entry carries changes nothing. */
  lemma EditKeyedAbsent<T>(xs: seq<T>, key: T -> string, id: string, edit: T -> T)
    requires id !in Keys(xs, key)
    ensures EditKeyed(xs, key, id, edit) == xs
  {
    forall k | 0 <= k < |xs|
      ensures key(xs[k]) != id
    {
      assert Keys(xs, key)[k] == key(xs[k]);
    }
  }

  /** An experience edit changes the named field of the entry with that id
      and nothing else: same length, same ids, every other entry and every
      other field unchanged. */
  lemma ExperienceEditChangesOneField(xs: seq<Experience>, i: int, f: ExperienceField, v: string)
    requires 0 <= i < |xs| && Distinct(Keys(xs, ExperienceId))
    ensures var ys := EditKeyed(xs, ExperienceId, xs[i].id, e => SetExperienceField(e, f, v));
      && |ys| == |xs| && Keys(ys, ExperienceId) == Keys(xs, ExperienceId)
      && (forall k :: 0 <= k < |xs| && k != i ==> ys[k] == xs[k])
      && ExperienceValue(ys[i], f) == v
      && (forall g :: g != f ==> ExperienceValue(ys[i], g) == ExperienceValue(xs[i], g))
  {
    var edit := e => SetExperienceField(e, f, v);
    EditKeyedTouchesOne(xs, ExperienceId, edit, i);
    var ys := EditKeyed(xs, ExperienceId, xs[i].id, edit);
    assert Keys(ys, ExperienceId) == Keys(xs, ExperienceId) by {
      assert forall k :: 0 <= k < |xs| ==> ys[k].id == xs[k].id;
    }
  }

  /** The same for an education edit. */
  lemma EducationEditChangesOneField(xs: seq<Education>, i: int, f: EducationField, v: string)
    requires 0 <= i < |xs| && Distinct(Keys(xs, EducationId))
    ensures var ys := EditKeyed(xs, EducationId, xs[i].id, e => SetEducationField(e, f, v));
      && |ys| == |xs| && Keys(ys, EducationId) == Keys(xs, EducationId)
      && (forall k :: 0 <= k < |xs| && k != i ==> ys[k] == xs[k])
      && EducationValue(ys[i], f) == v
      && (forall g :: g != f ==> EducationValue(ys[i], g) == EducationValue(xs[i], g))
  {
    var edit := e => SetEducationField(e, f, v);
    EditKeyedTouchesOne(xs, EducationId, edit, i);
    var ys := EditKeyed(xs, EducationId, xs[i].id, edit);
    assert Keys(ys, EducationId) == Keys(xs, EducationId) by {
      assert forall k :: 0 <= k < |xs| ==> ys[k].id == xs[k].id;
    }
  }

  // ---------------------------------------------------------------------
  // Languages, keyed by position

  /** `removeLanguage(index)`, `languages.filter((_, i) => i !== index)`
      when more than one entry is left: the entry at `index` goes and the
      others move up one place; nothing changes otherwise. */
  function RemoveAt<T>(xs: seq<T>, index: int): (r: seq<T>)
    ensures |xs| <= 1 || index < 0 || index >= |xs| ==> r == xs
    ensures |xs| > 1 && 0 <= index < |xs| ==>
      && |r| == |xs| - 1
      && (forall k :: 0 <= k < index ==> r[k] == xs[k])
      && (forall k :: index <= k < |r| ==> r[k] == xs[k + 1])
  {
    if |xs| > 1 && 0 <= index < |xs| then xs[..index] + xs[index + 1..] else xs
  }

  /** Appending an entry and removing the last position gives back the
      list. */
  lemma AppendThenRemoveAt<T>(xs: seq<T>, x: T)
    requires |xs| >= 1
    ensures RemoveAt(xs + [x], |xs|) == xs
  {
    assert (xs + [x])[..|xs|] == xs;
  }

  // ---------------------------------------------------------------------
  // Skills

  /** The skills list never holds "" or a value with surrounding
      whitespace, and never holds the same value twice. */
  predicate SkillsWellFormed(skills: seq<string>) {
    && Distinct(skills)
    && forall k :: 0 <= k < |skills| ==> skills[k] != "" && Trim(skills[k]) == skills[k]
  }

  /** The guard of `addSkill`: the trimmed input is non-empty and not
      already in the list. */
  predicate SkillAccepted(skills: seq<string>, input: string) {
    Trim(input) != "" && Trim(input) !in skills
  }

  /** `addSkill` on the list: the trimmed input goes at the end when
      accepted; the list is unchanged otherwise. Well-formedness is
      preserved. */
  function SkillsAfterAdd(skills: seq<string>, input: string): (r: seq<string>)
    ensures SkillAccepted(skills, input) <==> r != skills
    ensures SkillAccepted(skills, input) ==> r == skills + [Trim(input)]
    ensures SkillsWellFormed(skills) ==> SkillsWellFormed(r)
  {
    if SkillAccepted(skills, input) then
      TrimIdempotent(input);
      skills + [Trim(input)]
    else
      skills
  }

  /** `skills.filter(s => s !== skill)`: the value is gone, every other
      value stays, in the same relative order. Well-formedness is
      preserved. */
  function SkillsAfterRemove(skills: seq<string>, skill: string): (r: seq<string>)
    ensures skill !in r
    ensures forall k :: 0 <= k < |skills| && skills[k] != skill ==> skills[k] in r
    ensures IsSubsequence(r, skills)
    ensures SkillsWellFormed(skills) ==> SkillsWellFormed(r)
  {
    RemoveSkillKeepsWellFormed(skills, skill);
    Filter(skills, s => s != skill)
  }

  lemma RemoveSkillKeepsWellFormed(skills: seq<string>, skill: string)
    ensures SkillsWellFormed(skills) ==> SkillsWellFormed(Filter(skills, s => s != skill))
  {
    var keep := s => s != skill;
    if !SkillsWellFormed(skills) {
    } else if skill in skills {
      var i :| 0 <= i < |skills| && skills[i] == skill;
      forall k | 0 <= k < |skills| && k != i
        ensures keep(skills[k])
      {
        assert skills[k] != skills[i] by {
          if k < i {} else {}
        }
      }
      FilterDropsOne(skills, keep, i);
      DistinctWithout(skills, i);
    } else {
      FilterKeepsAll(skills, keep);
    }
  }

  /** Adding an accepted skill and removing it again gives back the
      list. */
  lemma AddThenRemoveSkill(skills: seq<string>, input: string)
    requires SkillAccepted(skills, input)
    ensures SkillsAfterRemove(SkillsAfterAdd(skills, input), Trim(input)) == skills
  {
    var t := Trim(input);
    var keep := s => s != t;
    forall k | 0 <= k < |skills|
      ensures keep(skills[k])
    {
    }
    FilterAppendOne(skills, t, keep);
    FilterKeepsAll(skills, keep);
  }

  // ---------------------------------------------------------------------
  // Preview

  const NotProvided: string := "Non renseigné"

  /** `value || "Non renseigné"`. */
  function OrNotProvided(value: string): (shown: string)
    ensures shown != ""
    ensures value != "" ==> shown == value
  {
    if value != "" then value else NotProvided
  }

  /** The summary on the last step. An entry counts once its main field
      (company, institution, language) is filled in; every skill counts. */
  datatype Preview = Preview(name: string, email: string, experiences: nat,
                             educations: nat, skills: nat, languages: nat)

  function PreviewOf(info: PersonalInfo, experiences: seq<Experience>, educations: seq<Education>,
                     skills: seq<string>, languages: seq<LanguageEntry>): (p: Preview)
    ensures p.name != "" && p.email != ""
    ensures info.fullName != "" ==> p.name == info.fullName
    ensures info.email != "" ==> p.email == info.email
    ensures p.experiences <= |experiences| && p.educations <= |educations|
    ensures p.languages <= |languages| && p.skills == |skills|
    ensures p.experiences == |experiences| <==> forall k :: 0 <= k < |experiences| ==> experiences[k].company != ""
    ensures p.educations == |educations| <==> forall k :: 0 <= k < |educations| ==> educations[k].institution != ""
    ensures p.languages == |languages| <==> forall k :: 0 <= k < |languages| ==> languages[k].language != ""
    ensures p.experiences == |set k | 0 <= k < |experiences| && experiences[k].company != ""|
    ensures p.educations == |set k | 0 <= k < |educations| && educations[k].institution != ""|
    ensures p.languages == |set k | 0 <= k < |languages| && languages[k].language != ""|
  {
    Preview(OrNotProvided(info.fullName), OrNotProvided(info.email),
            FilledExperiences(experiences), FilledEducations(educations),
            |skills|, FilledLanguages(languages))
  }

  /** An entry counts in the preview once its main field is filled in. */
  predicate HasCompany(e: Experience) { e.company != "" }
  predicate HasInstitution(e: Education) { e.institution != "" }
  predicate HasLanguage(l: LanguageEntry) { l.language != "" }

  /** The number of experiences whose company is filled in. */
  function FilledExperiences(experiences: seq<Experience>): (n: nat)
    ensures n <= |experiences|
    ensures n == |set k | 0 <= k < |experiences| && experiences[k].company != ""|
    ensures n == |experiences| <==> forall k :: 0 <= k < |experiences| ==> experiences[k].company != ""
  {
    var keep := HasCompany;
    FilterKeepsLengthIff(experiences, keep);
    FilterLengthCountsMembers(experiences, keep, set k | 0 <= k < |experiences| && experiences[k].company != "");
    |Filter(experiences, keep)|
  }

  /** The number of educations whose institution is filled in. */
  function FilledEducations(educations: seq<Education>): (n: nat)
    ensures n <= |educations|
    ensures n == |set k | 0 <= k < |educations| && educations[k].institution != ""|
    ensures n == |educations| <==> forall k :: 0 <= k < |educations| ==> educations[k].institution != ""
  {
    var keep := HasInstitution;
    FilterKeepsLengthIff(educations, keep);
    FilterLengthCountsMembers(educations, keep, set k | 0 <= k < |educations| && educations[k].institution != "");
    |Filter(educations, keep)|
  }

  /** The number of language entries whose language is filled in. */
  function FilledLanguages(languages: seq<LanguageEntry>): (n: nat)
    ensures n <= |languages|
    ensures n == |set k | 0 <= k < |languages| && languages[k].language != ""|
    ensures n == |languages| <==> forall k :: 0 <= k < |languages| ==> languages[k].language != ""
  {
    var keep := HasLanguage;
    FilterKeepsLengthIff(languages, keep);
    FilterLengthCountsMembers(languages, keep, set k | 0 <= k < |languages| && languages[k].language != "");
    |Filter(languages, keep)|
  }

  /** Appending blank entries never changes the preview's counts. */
  lemma BlankEntriesNotCounted(info: PersonalInfo, experiences: seq<Experience>, educations: seq<Education>,
                               skills: seq<string>, languages: seq<LanguageEntry>, expId: string, eduId: string)
    ensures PreviewOf(info, experiences + [BlankExperience(expId)], educations + [BlankEducation(eduId)],
                      skills, languages + [BlankLanguage])
         == PreviewOf(info, experiences, educations, skills, languages)
  {
    FilterAppendOne(experiences, BlankExperience(expId), HasCompany);
    FilterAppendOne(educations, BlankEducation(eduId), HasInstitution);
    FilterAppendOne(languages, BlankLanguage, HasLanguage);
  }

  // ---------------------------------------------------------------------
  // The page

  class Wizard {
    var currentStep: int
    var personalInfo: PersonalInfo
    var experiences: seq<Experience>
    var educations: seq<Education>
    var skills: seq<string>
    var skillInput: string
    var languages: seq<LanguageEntry>

    /** What every handler preserves: the current step names one of the six
        steps, the skills are well formed, a language entry is left. */
    ghost predicate Valid()
      reads this`currentStep, this`skills, this`languages
    {
      && 1 <= currentStep <= |Steps|
      && SkillsWellFormed(skills)
      && |languages| >= 1
    }

    /** The experience and education lists each hold an entry and their
        ids are distinct. Handlers keep this as long as every `Date.now()`
        reading used as an id is new. */
    ghost predicate WellKeyed()
      reads this`experiences, this`educations
    {
      && |experiences| >= 1 && Distinct(Keys(experiences, ExperienceId))
      && |educations| >= 1 && Distinct(Keys(educations, EducationId))
    }

    constructor()
      ensures Valid() && WellKeyed()
      ensures currentStep == 1 && personalInfo == BlankPersonalInfo
      ensures experiences == [BlankExperience("1")] && educations == [BlankEducation("1")]
      ensures skills == [] && skillInput == "" && languages == [BlankLanguage]
    {
      currentStep := 1;
      personalInfo := BlankPersonalInfo;
      experiences := [BlankExperience("1")];
      educations := [BlankEducation("1")];
      skills := [];
      skillInput := "";
      languages := [BlankLanguage];
    }

    /** The title shown above the form, `steps[currentStep - 1].title`,
        always exists. */
    function CurrentTitle(): (t: string)
      requires Valid()
      reads this
      ensures t == Steps[currentStep - 1].title
      ensures exists k :: 0 <= k < |Steps| && Steps[k].id == currentStep && Steps[k].title == t
    {
      StepIdsArePositions();
      Steps[currentStep - 1].title
    }

    /** The back button is disabled exactly on the first step. */
    function PrevDisabled(): (d: bool)
      requires Valid()
      reads this
      ensures d <==> PrevStep(currentStep) == currentStep
    {
      currentStep == 1
    }

    /** The forward button is shown exactly when `nextStep` would move. */
    function NextShown(): (shown: bool)
      reads this
      ensures shown <==> NextStep(currentStep) != currentStep
    {
      currentStep < |Steps|
    }

    method GoNext()
      requires Valid()
      modifies this
      ensures Valid()
      ensures currentStep == NextStep(old(currentStep))
      ensures personalInfo == old(personalInfo) && experiences == old(experiences) && educations == old(educations)
      ensures skills == old(skills) && skillInput == old(skillInput) && languages == old(languages)
    {
      if currentStep < |Steps| {
        currentStep := currentStep + 1;
      }
    }

    method GoPrev()
      requires Valid()
      modifies this
      ensures Valid()
      ensures currentStep == PrevStep(old(currentStep))
      ensures personalInfo == old(personalInfo) && experiences == old(experiences) && educations == old(educations)
      ensures skills == old(skills) && skillInput == old(skillInput) && languages == old(languages)
    {
      if currentStep > 1 {
        currentStep := currentStep - 1;
      }
    }

    /** A click on the indicator of step `k` of the list jumps to its id. */
    method JumpTo(k: int)
      requires Valid() && 0 <= k < |Steps|
      modifies this
      ensures Valid()
      ensures currentStep == Steps[k].id && currentStep == k + 1
      ensures personalInfo == old(personalInfo) && experiences == old(experiences) && educations == old(educations)
      ensures skills == old(skills) && skillInput == old(skillInput) && languages == old(languages)
    {
      StepIdsArePositions();
      currentStep := Steps[k].id;
    }

    method SetPersonal(f: PersonalField, v: string)
      requires Valid()
      modifies this
      ensures Valid() && (old(WellKeyed()) ==> WellKeyed())
      ensures personalInfo == SetPersonalField(old(personalInfo), f, v)
      ensures currentStep == old(currentStep) && experiences == old(experiences) && educations == old(educations)
      ensures skills == old(skills) && skillInput == old(skillInput) && languages == old(languages)
    {
      personalInfo := SetPersonalField(personalInfo, f, v);
    }

    /** `addExperience`, with the clock reading `now` behind the new id. */
    method AddExperience(now: nat)
      requires Valid()
      modifies this
      ensures Valid()
      ensures experiences == old(experiences) + [BlankExperience(NatToString(now))]
      ensures old(WellKeyed()) && NatToString(now) !in Keys(old(experiences), ExperienceId) ==> WellKeyed()
      ensures currentStep == old(currentStep) && personalInfo == old(personalInfo) && educations == old(educations)
      ensures skills == old(skills) && skillInput == old(skillInput) && languages == old(languages)
    {
      var e := BlankExperience(NatToString(now));
      if WellKeyed() && e.id !in Keys(experiences, ExperienceId) {
        AppendKeepsDistinct(experiences, ExperienceId, e);
      }
      experiences := experiences + [e];
    }

    method RemoveExperience(id: string)
      requires Valid()
      modifies this
      ensures Valid() && (old(WellKeyed()) ==> WellKeyed())
      ensures experiences == RemoveKeyed(old(experiences), ExperienceId, id)
      ensures currentStep == old(currentStep) && personalInfo == old(personalInfo) && educations == old(educations)
      ensures skills == old(skills) && skillInput == old(skillInput) && languages == old(languages)
    {
      if WellKeyed() {
        if id in Keys(experiences, ExperienceId) {
          var i :| 0 <= i < |experiences| && Keys(experiences, ExperienceId)[i] == id;
          if |experiences| > 1 {
            RemoveKeyedDropsOne(experiences, ExperienceId, i);
          }
        } else {
          RemoveKeyedAbsent(experiences, ExperienceId, id);
        }
      }
      experiences := RemoveKeyed(experiences, ExperienceId, id);
    }

    method EditExperience(id: string, f: ExperienceField, v: string)
      requires Valid()
      modifies this
      ensures Valid() && (old(WellKeyed()) ==> WellKeyed())
      ensures experiences == EditKeyed(old(experiences), ExperienceId, id, e => SetExperienceField(e, f, v))
      ensures currentStep == old(currentStep) && personalInfo == old(personalInfo) && educations == old(educations)
      ensures skills == old(skills) && skillInput == old(skillInput) && languages == old(languages)
    {
      var ys := EditKeyed(experiences, ExperienceId, id, e => SetExperienceField(e, f, v));
      assert Keys(ys, ExperienceId) == Keys(experiences, ExperienceId) by {
        assert forall k :: 0 <= k < |ys| ==> ys[k].id == experiences[k].id;
      }
      experiences := ys;
    }

    /** `addEducation`, with the clock reading `now` behind the new id. */
    method AddEducation(now: nat)
      requires Valid()
      modifies this
      ensures Valid()
      ensures educations == old(educations) + [BlankEducation(NatToString(now))]
      ensures old(WellKeyed()) && NatToString(now) !in Keys(old(educations), EducationId) ==> WellKeyed()
      ensures currentStep == old(currentStep) && personalInfo == old(personalInfo) && experiences == old(experiences)
      ensures skills == old(skills) && skillInput == old(skillInput) && languages == old(languages)
    {
      var e := BlankEducation(NatToString(now));
      if WellKeyed() && e.id !in Keys(educations, EducationId) {
        AppendKeepsDistinct(educations, EducationId, e);
      }
      educations := educations + [e];
    }

    method RemoveEducation(id: string)
      requires Valid()
      modifies this
      ensures Valid() && (old(WellKeyed()) ==> WellKeyed())
      ensures educations == RemoveKeyed(old(educations), EducationId, id)
      ensures currentStep == old(currentStep) && personalInfo == old(personalInfo) && experiences == old(experiences)
      ensures skills == old(skills) && skillInput == old(skillInput) && languages == old(languages)
    {
      if WellKeyed() {
        if id in Keys(educations, EducationId) {
          var i :| 0 <= i < |educations| && Keys(educations, EducationId)[i] == id;
          if |educations| > 1 {
            RemoveKeyedDropsOne(educations, EducationId, i);
          }
        } else {
          RemoveKeyedAbsent(educations, EducationId, id);
        }
      }
      educations := RemoveKeyed(educations, EducationId, id);
    }

    method EditEducation(id: string, f: EducationField, v: string)
      requires Valid()
      modifies this
      ensures Valid() && (old(WellKeyed()) ==> WellKeyed())
      ensures educations == EditKeyed(old(educations), EducationId, id, e => SetEducationField(e, f, v))
      ensures currentStep == old(currentStep) && personalInfo == old(personalInfo) && experiences == old(experiences)
      ensures skills == old(skills) && skillInput == old(skillInput) && languages == old(languages)
    {
      var ys := EditKeyed(educations, EducationId, id, e => SetEducationField(e, f, v));
      assert Keys(ys, EducationId) == Keys(educations, EducationId) by {
        assert forall k :: 0 <= k < |ys| ==> ys[k].id == educations[k].id;
      }
      educations := ys;
    }

    /** The skill input's `onChange`. */
    method SetSkillInput(text: string)
      requires Valid()
      modifies this
      ensures Valid() && (old(WellKeyed()) ==> WellKeyed())
      ensures skillInput == text && skills == old(skills)
      ensures currentStep == old(currentStep) && personalInfo == old(personalInfo)
      ensures experiences == old(experiences) && educations == old(educations) && languages == old(languages)
    {
      skillInput := text;
    }

    /** `addSkill`, from the button or the Enter key: an accepted input is
        appended trimmed and the input cleared; otherwise nothing
        changes. */
    method AddSkill()
      requires Valid()
      modifies this
      ensures Valid() && (old(WellKeyed()) ==> WellKeyed())
      ensures skills == SkillsAfterAdd(old(skills), old(skillInput))
      ensures skillInput == if SkillAccepted(old(skills), old(skillInput)) then "" else old(skillInput)
      ensures currentStep == old(currentStep) && personalInfo == old(personalInfo)
      ensures experiences == old(experiences) && educations == old(educations) && languages == old(languages)
    {
      var added := SkillsAfterAdd(skills, skillInput);
      if SkillAccepted(skills, skillInput) {
        skills := added;
        skillInput := "";
      } else {
        assert added == skills;
      }
    }

    method RemoveSkill(skill: string)
      requires Valid()
      modifies this
      ensures Valid() && (old(WellKeyed()) ==> WellKeyed())
      ensures skills == SkillsAfterRemove(old(skills), skill) && skillInput == old(skillInput)
      ensures currentStep == old(currentStep) && personalInfo == old(personalInfo)
      ensures experiences == old(experiences) && educations == old(educations) && languages == old(languages)
    {
      skills := SkillsAfterRemove(skills, skill);
    }

    method AddLanguage()
      requires Valid()
      modifies this
      ensures Valid() && (old(WellKeyed()) ==> WellKeyed())
      ensures languages == old(languages) + [BlankLanguage]
      ensures currentStep == old(currentStep) && personalInfo == old(personalInfo) && skillInput == old(skillInput)
      ensures experiences == old(experiences) && educations == old(educations) && skills == old(skills)
    {
      languages := languages + [BlankLanguage];
    }

    method RemoveLanguage(index: int)
      requires Valid()
      modifies this
      ensures Valid() && (old(WellKeyed()) ==> WellKeyed())
      ensures languages == RemoveAt(old(languages), index)
      ensures currentStep == old(currentStep) && personalInfo == old(personalInfo) && skillInput == old(skillInput)
      ensures experiences == old(experiences) && educations == old(educations) && skills == old(skills)
    {
      languages := RemoveAt(languages, index);
    }

    /** A language or level input's `onChange`: the entry at `index`, whose
        row holds the input, gets the new value in that field. */
    method EditLanguage(index: int, f: LanguageField, v: string)
      requires Valid() && 0 <= index < |languages|
      modifies this
      ensures Valid() && (old(WellKeyed()) ==> WellKeyed())
      ensures languages == old(languages)[index := SetLanguageField(old(languages)[index], f, v)]
      ensures currentStep == old(currentStep) && personalInfo == old(personalInfo) && skillInput == old(skillInput)
      ensures experiences == old(experiences) && educations == old(educations) && skills == old(skills)
    {
      languages := languages[index := SetLanguageField(languages[index], f, v)];
    }

  }

  /** A fresh wizard previews as empty: both names "Non renseigné" and
      every count zero. */
  lemma FreshPreview()
    ensures PreviewOf(BlankPersonalInfo, [BlankExperience("1")], [BlankEducation("1")], [], [BlankLanguage])
         == Preview(NotProvided, NotProvided, 0, 0, 0, 0)
  {
    var one := [BlankExperience("1")];
    assert Filter(one, HasCompany) == Filter(one[1..], HasCompany);
    var two := [BlankEducation("1")];
    assert Filter(two, HasInstitution) == Filter(two[1..], HasInstitution);
    var three := [BlankLanguage];
    assert Filter(three, HasLanguage) == Filter(three[1..], HasLanguage);
  }
}
