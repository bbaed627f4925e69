/** The badge that renders a status: a fixed table from the five display statuses
    to a label and a CSS class. */
module StatusBadge {
  import opened AttendanceTypes

  datatype Variant = Variant(text: string, className: string)

  const MutedClass := "bg-muted text-muted-foreground"

  /** `variants[status]`; total over the four stored statuses and `not-marked`. */
  function BadgeVariant(s: DisplayStatus): (v: Variant)
    ensures s == NotMarked <==> v.className == MutedClass
  {
    match s
    case Marked(Present) => Variant("Present", "bg-success/10 text-success hover:bg-success/20")
    case Marked(Absent) => Variant("Absent", "bg-destructive/10 text-destructive hover:bg-destructive/20")
    case Marked(Late) => Variant("Late", "bg-late/10 text-late hover:bg-late/20")
    case Marked(HalfDay) => Variant("Half Day", "bg-half-day/10 text-half-day hover:bg-half-day/20")
    case NotMarked => Variant("Not Marked", MutedClass)
  }

  /** The labels the badge shows. */
  lemma BadgeLabels()
    ensures BadgeVariant(Marked(Present)).text == "Present"
    ensures BadgeVariant(Marked(Absent)).text == "Absent"
    ensures BadgeVariant(Marked(Late)).text == "Late"
    ensures BadgeVariant(Marked(HalfDay)).text == "Half Day"
    ensures BadgeVariant(NotMarked).text == "Not Marked"
  {
  }

  function Rank(s: DisplayStatus): nat
  {
    match s
    case Marked(Present) => 0
    case Marked(Absent) => 1
    case Marked(Late) => 2
    case Marked(HalfDay) => 3
    case NotMarked => 4
  }

  lemma BadgeLengths(s: DisplayStatus)
    ensures Rank(s) < 5
    ensures |BadgeVariant(s).text| == [7, 6, 4, 8, 10][Rank(s)]
    ensures |BadgeVariant(s).className| == [46, 58, 37, 49, 30][Rank(s)]
  {
    match s
    case Marked(Present) =>
    case Marked(Absent) =>
    case Marked(Late) =>
    case Marked(HalfDay) =>
    case NotMarked =>
  }

  /** No two statuses share a label or a class. */
  lemma BadgeVariantsDistinct(s: DisplayStatus, t: DisplayStatus)
    requires s != t
    ensures BadgeVariant(s).text != BadgeVariant(t).text
    ensures BadgeVariant(s).className != BadgeVariant(t).className
  {
    // all five labels, and all five classes, have different lengths
    BadgeLengths(s);
    BadgeLengths(t);
  }
}
