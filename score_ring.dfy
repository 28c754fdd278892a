/** The colour and gradient chosen by the circular score gauge
    (src/components/ui/score-ring.tsx). The gauge geometry (radius,
    circumference, dash offset) is floating point and is not modelled. */
module ScoreRing {

  /** The four bands of the gauge, from worst to best. */
  datatype Band = Destructive | Warning | Primary | Success

  function Rank(b: Band): nat {
    match b
    case Destructive => 0
    case Warning => 1
    case Primary => 2
    case Success => 3
  }

  /** The score interval each band covers. */
  predicate InBand(score: int, b: Band) {
    match b
    case Success => 80 <= score
    case Primary => 60 <= score < 80
    case Warning => 40 <= score < 60
    case Destructive => score < 40
  }

  /** The band a score falls in: the one whose interval holds it. */
  function Classify(score: int): (b: Band)
    ensures InBand(score, b)
    ensures forall other: Band :: InBand(score, other) ==> other == b
  {
    if score >= 80 then Success
    else if score >= 60 then Primary
    else if score >= 40 then Warning
    else Destructive
  }

  /** The text colour class of each band. */
  function ColorClass(b: Band): string {
    match b
    case Success => "text-success"
    case Primary => "text-primary"
    case Warning => "text-warning"
    case Destructive => "text-destructive"
  }

  /** The SVG gradient of each band. */
  function GradientId(b: Band): string {
    match b
    case Success => "success-gradient"
    case Primary => "primary-gradient"
    case Warning => "warning-gradient"
    case Destructive => "destructive-gradient"
  }

  /** getColor: the text colour of the score in the middle of the gauge. */
  function GetColor(score: int): (cls: string)
    ensures cls == "text-success" <==> score >= 80
    ensures cls == "text-primary" <==> 60 <= score < 80
    ensures cls == "text-warning" <==> 40 <= score < 60
    ensures cls == "text-destructive" <==> score < 40
  {
    if score >= 80 then "text-success"
    else if score >= 60 then "text-primary"
    else if score >= 40 then "text-warning"
    else "text-destructive"
  }

  /** getGradientId: the stroke gradient of the gauge's arc. */
  function GetGradientId(score: int): (id: string)
    ensures id == "success-gradient" <==> score >= 80
    ensures id == "primary-gradient" <==> 60 <= score < 80
    ensures id == "warning-gradient" <==> 40 <= score < 60
    ensures id == "destructive-gradient" <==> score < 40
  {
    if score >= 80 then "success-gradient"
    else if score >= 60 then "primary-gradient"
    else if score >= 40 then "warning-gradient"
    else "destructive-gradient"
  }

  /** The text colour and the arc gradient always name the same band. */
  lemma ColorAndGradientAgree(score: int)
    ensures GetColor(score) == ColorClass(Classify(score))
    ensures GetGradientId(score) == GradientId(Classify(score))
  {
  }

  /** A higher score never gets a worse band. */
  lemma ClassifyMonotone(a: int, b: int)
    requires a <= b
    ensures Rank(Classify(a)) <= Rank(Classify(b))
  {
  }
}
