/** What a job offer card shows (src/components/cards/JobCard.tsx): the
    match-score badge and its tone, and which optional fields appear. */
module JobCard {
  import opened Wrappers
  import ScoreRing

  /** The card's props; `undefined` props are `None`. */
  datatype JobCardProps = JobCardProps(
    title: string,
    company: string,
    location: string,
    date: Option<string>,
    matchScore: Option<int>,
    url: Option<string>,
    source: Option<string>)

  /** The tone of the match-score badge. */
  datatype Tone = SuccessTone | PrimaryTone | WarningTone | MutedTone

  /** The badge tone: >= 80 success, >= 60 primary, >= 40 warning, else muted. */
  function BadgeTone(matchScore: int): (t: Tone)
    ensures t == SuccessTone <==> matchScore >= 80
    ensures t == PrimaryTone <==> 60 <= matchScore < 80
    ensures t == WarningTone <==> 40 <= matchScore < 60
    ensures t == MutedTone <==> matchScore < 40
  {
    if matchScore >= 80 then SuccessTone
    else if matchScore >= 60 then PrimaryTone
    else if matchScore >= 40 then WarningTone
    else MutedTone
  }

  /** The class names the badge gets for each tone. */
  function ToneClass(t: Tone): string {
    match t
    case SuccessTone => "bg-success/10 text-success"
    case PrimaryTone => "bg-primary/10 text-primary"
    case WarningTone => "bg-warning/10 text-warning"
    case MutedTone => "bg-muted text-muted-foreground"
  }

  /** JavaScript truthiness of an optional string prop: `undefined` and ""
      are both falsy. */
  predicate Truthy(s: Option<string>) {
    s.Some? && s.value != ""
  }

  /** The rendered card: the always-shown text, and each optional element
      present or absent. */
  datatype CardView = CardView(
    title: string,
    company: string,
    location: string,
    date: Option<string>,
    source: Option<string>,
    badge: Option<(int, string)>,
    link: Option<string>)

  /** Renders the card. The date, the source badge and the link button
      appear only for a truthy prop; the score badge appears whenever the
      score is defined, so a score of 0 still shows. */
  function Render(p: JobCardProps): (v: CardView)
    ensures v.title == p.title && v.company == p.company && v.location == p.location
    ensures v.date.Some? <==> Truthy(p.date)
    ensures v.source.Some? <==> Truthy(p.source)
    ensures v.link.Some? <==> Truthy(p.url)
    ensures v.badge.Some? <==> p.matchScore.Some?
    ensures v.badge.Some? ==> v.badge.value.0 == p.matchScore.value
                              && v.badge.value.1 == ToneClass(BadgeTone(p.matchScore.value))
    ensures v.date.Some? ==> v.date == p.date
    ensures v.source.Some? ==> v.source == p.source
    ensures v.link.Some? ==> v.link == p.url
  {
    CardView(
      p.title, p.company, p.location,
      if Truthy(p.date) then p.date else None,
      if Truthy(p.source) then p.source else None,
      if p.matchScore.Some? then Some((p.matchScore.value, ToneClass(BadgeTone(p.matchScore.value)))) else None,
      if Truthy(p.url) then p.url else None)
  }

  /** The badge thresholds 80, 60 and 40 are the gauge's band boundaries:
      each tone covers exactly one gauge band, muted standing for the
      gauge's destructive band. */
  lemma BadgeTonesMatchGaugeBands(score: int)
    ensures BadgeTone(score) == SuccessTone <==> ScoreRing.Classify(score) == ScoreRing.Success
    ensures BadgeTone(score) == PrimaryTone <==> ScoreRing.Classify(score) == ScoreRing.Primary
    ensures BadgeTone(score) == WarningTone <==> ScoreRing.Classify(score) == ScoreRing.Warning
    ensures BadgeTone(score) == MutedTone <==> ScoreRing.Classify(score) == ScoreRing.Destructive
  {
  }

  /** A score of 0 shows a muted badge, while an empty date is hidden. */
  lemma ZeroScoreShownEmptyDateHidden(title: string, company: string, location: string)
    ensures var v := Render(JobCardProps(title, company, location, Some(""), Some(0), None, None));
            v.badge == Some((0, "bg-muted text-muted-foreground")) && v.date.None?
  {
  }
}
