/** The component record and its table: `components` in the SQLite schema, keyed by name. */
module Components {
  import opened Wrappers

  datatype Component = Component(
    name: string,
    visibility: string,
    series: seq<string>,
    families: seq<string>,
    architectures: seq<string>,
    createdAt: int)

  predicate Public(c: Component) {
    c.visibility == "public"
  }

  type Table = map<string, Component>

  /** What a component read returns: the record, ErrComponentNotFound, or any other error. */
  datatype GetResult = Found(comp: Component) | Absent | Failed

  /** One read of the table; `ok` is false when the database itself fails. */
  function ReadTable(t: Table, name: string, ok: bool := true): GetResult {
    if !ok then Failed
    else if name in t then Found(t[name])
    else Absent
  }

  /** A partial update; None leaves the column as it is, Some replaces it. */
  datatype Patch = Patch(
    visibility: Option<string>,
    series: Option<seq<string>>,
    families: Option<seq<string>>,
    architectures: Option<seq<string>>)

  function Patched(c: Component, p: Patch): Component {
    c.(visibility := p.visibility.GetOr(c.visibility),
       series := p.series.GetOr(c.series),
       families := p.families.GetOr(c.families),
       architectures := p.architectures.GetOr(c.architectures))
  }

  /** The schema's CHECK on the visibility column. */
  predicate ValidVisibility(v: string) {
    v == "public" || v == "private"
  }

  /** The writes the cache decorates. Both deletes have the same effect on this table. */
  datatype Write = Update(patch: Patch) | Delete | DeleteWithRevoke

  /** The table a successful write commits; None when the write reports an error and changes nothing. */
  function Committed(t: Table, name: string, w: Write): Option<Table> {
    if name !in t then None
    else match w
      case Update(p) =>
        var c := Patched(t[name], p);
        if ValidVisibility(c.visibility) then Some(t[name := c]) else None
      case Delete => Some(t - {name})
      case DeleteWithRevoke => Some(t - {name})
  }

  /** INSERT of a new component: an empty visibility means private; an existing name is refused. */
  function Created(t: Table, c: Component): Option<Table> {
    var v := if c.visibility == "" then "private" else c.visibility;
    if c.name in t || !ValidVisibility(v) then None
    else Some(t[c.name := c.(visibility := v)])
  }
}
