/** The deck model: slides, their objects, masters, and what a text box holds. */
module Engine {

  datatype Option<+T> = None | Some(value: T)

  datatype Result<+T, +E> = Ok(value: T) | Err(error: E)

  /** Where a moving build comes from (in) or goes to (out). */
  datatype Edge = Left | Right | Top | Bottom

  datatype BuildEffect = Appear | Dissolve | Move(edge: Edge)

  /** Object `target` (a stable id) arrives (`out` false) or leaves, on its own click. */
  datatype Build = Build(target: nat, effect: BuildEffect, out: bool)

  datatype Placeholder = Title | Subtitle | Body

  /** The source placeholder a box was read from. */
  datatype PlaceholderKey = PlaceholderKey(ty: string, idx: Option<nat>)

  datatype RunStyle = RunStyle(bold: bool, italic: bool, size: Option<nat>, color: Option<string>)

  const PLAIN := RunStyle(false, false, None, None)

  datatype TextRun = TextRun(text: string, style: RunStyle)

  datatype Bullet = NoBullet | Mark(text: string) | AutoNum(scheme: string, start: nat)

  datatype ParaStyle = ParaStyle(align: nat, level: nat, bullet: Bullet, marginLeft: real, indent: real)

  datatype TextBody = TextBody(paras: seq<ParaStyle>, placeholder: Option<Placeholder>, key: Option<PlaceholderKey>)

  const PLAIN_BODY := TextBody([], None, None)

  /** What stands in its box besides text: shapes, pictures, tables, charts. The
      core carries these along; each field is opaque to it. */
  datatype Content =
    | Rect
    | Preset(shape: string, style: string)
    | Image(path: string, crop: string)
    | Table(table: string)
    | Chart(chart: string)

  datatype SlideObject =
    | TextBox(text: string, x: real, y: real, w: real, h: real, rotation: real, runs: seq<TextRun>, body: TextBody)
    | Circle(x: real, y: real, r: real, rotation: real)
    | Boxed(what: Content, x: real, y: real, w: real, h: real, rotation: real)

  datatype Transition = NoTransition | Fade | Push | Wipe | MagicMove

  /** A slide's properties other than its objects: one register. */
  datatype SlideProps = SlideProps(
    title: string,
    background: string,
    picture: Option<string>,
    notes: string,
    masterId: Option<nat>,
    transition: Transition,
    builds: seq<Build>,
    layoutId: Option<nat>)

  /** A slide's id (0: not assigned yet), its objects' ids, and its tombstones. */
  datatype SlideIds = SlideIds(slide: nat, objects: seq<nat>, deleted: seq<nat>)

  datatype Slide = Slide(props: SlideProps, hidden: bool, objects: seq<SlideObject>, ids: SlideIds)

  datatype LayoutPlace = LayoutPlace(
    id: nat, role: Placeholder, x: real, y: real, w: real, h: real, sourceTy: string, sourceIdx: Option<nat>)

  datatype Layout = Layout(id: nat, name: string, places: seq<LayoutPlace>)

  datatype Master = Master(id: nat, name: string, background: string, font: string, shapes: seq<SlideObject>, layouts: seq<Layout>)
}
