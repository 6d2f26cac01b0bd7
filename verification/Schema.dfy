/** The schema the generator reads: containers, the values they describe, and what
    makes a schema and a value good. */
module Schema {
  import opened Fields

  /** A maximal run of consecutive parameters that agree on `optional`, `repeatable`
      and `group`, as `itertools.groupby` delivers them. `name` is "" for no group. */
  datatype Group = Group(optional: bool, repeatable: bool, name: string, members: seq<nat>) {
    /** One required choice among several ("mutually exclusive"). */
    predicate Exclusive() {
      !optional && !repeatable && name != ""
    }

    /** The path without a loop or switch: one parameter, or a run of required ones. */
    predicate Simple() {
      !repeatable && (|members| == 1 || (name == "" && !optional))
    }
  }

  /** A parameter definition with the derived properties `set_param_sizes` gives it. */
  datatype Container = Container(fields: seq<Field>, groups: seq<Group>, minSize: nat, fixed: bool)

  type Schema = map<nat, Container>

  /** `ParamType.IsTV`: types 1 to 127 have a one-byte header, the others a TLV header. */
  predicate IsTv(id: nat) {
    0 < id <= 127
  }

  function HeaderSize(id: nat): nat {
    if IsTv(id) then 1 else 4
  }

  /** Every parameter a container mentions is defined. */
  ghost predicate Closed(s: Schema) {
    forall id, i, k ::
      id in s && 0 <= i < |s[id].groups| && 0 <= k < |s[id].groups[i].members|
      ==> s[id].groups[i].members[k] in s
  }

  predicate AllFixed(fs: seq<Field>) {
    forall i :: 0 <= i < |fs| ==> IsFixed(fs[i])
  }

  /** `Container.can_inline`: the Go type is the field's type, not a struct. */
  predicate CanInline(c: Container) {
    c.groups == [] && |c.fields| == 1
    && (c.fields[0].Scalar? || (c.fields[0].Packed? && |c.fields[0].parts| == 1))
  }

  // ---- values ----

  /** A parameter's struct: its fields and, per group, per member, what is present.
      An optional parameter's pointer is a list of at most one value, a required one's
      struct a list of exactly one; an unselected member of an exclusive group, whose
      struct is left zero, is the empty list. */
  datatype Value = Value(fields: seq<FieldValue>, groups: seq<GroupValue>)
  datatype GroupValue = GroupValue(slots: seq<Slot>)
  datatype Slot = Slot(items: seq<Value>)

  ghost predicate FieldsOk(fs: seq<Field>, vs: seq<FieldValue>) {
    |fs| == |vs| && forall i :: 0 <= i < |fs| ==> ValueOk(fs[i], vs[i])
  }

  /** How many of each member a group admits. */
  predicate Shape(g: Group, slots: seq<Slot>) {
    && |slots| == |g.members|
    && (forall k :: 0 <= k < |slots| ==>
          && (!g.repeatable ==> |slots[k].items| <= 1)
          && (g.repeatable && !g.optional ==> slots[k].items != [])
          && (!g.repeatable && !g.optional && g.name == "" ==> |slots[k].items| == 1))
    && (g.Exclusive() ==>
          exists k :: 0 <= k < |slots| && |slots[k].items| == 1
                      && forall j :: 0 <= j < |slots| && j != k ==> slots[j].items == [])
  }

  /** A value that fits the parameter's definition. */
  ghost predicate WellFormed(s: Schema, id: nat, v: Value)
    decreases v, 1
  {
    && id in s
    && FieldsOk(s[id].fields, v.fields)
    && GroupsWellFormed(s, s[id].groups, v.groups)
  }

  ghost predicate GroupsWellFormed(s: Schema, gs: seq<Group>, gvs: seq<GroupValue>)
    decreases gvs, 0
  {
    && |gs| == |gvs|
    && (gs != [] ==>
          && Shape(gs[0], gvs[0].slots)
          && SlotsWellFormed(s, gs[0].members, gvs[0].slots)
          && GroupsWellFormed(s, gs[1..], gvs[1..]))
  }

  ghost predicate SlotsWellFormed(s: Schema, ids: seq<nat>, slots: seq<Slot>)
    decreases slots, 0
  {
    && |ids| == |slots|
    && (ids != [] ==> ItemsWellFormed(s, ids[0], slots[0].items) && SlotsWellFormed(s, ids[1..], slots[1..]))
  }

  ghost predicate ItemsWellFormed(s: Schema, id: nat, items: seq<Value>)
    decreases items, 0
  {
    items != [] ==> WellFormed(s, id, items[0]) && ItemsWellFormed(s, id, items[1..])
  }

  // ---- the three ways a well-formed value can be lost on the wire ----

  /** The bytes of the fixed fields behind the last variable one. */
  function Trailing(fs: seq<Field>): nat {
    if fs == [] then 0 else (if AllFixed(fs) then MinSize(fs[0]) else 0) + Trailing(fs[1..])
  }

  lemma {:induction false} VariableLast(fs: seq<Field>)
    requires fs != [] && !IsFixed(fs[|fs| - 1])
    ensures Trailing(fs) == 0
  {
    hide IsFixed;
    if |fs| > 1 {
      VariableLast(fs[1..]);
    }
  }

  /** A parameter of variable size that has no parameters of its own is checked for bytes
      left over behind its last variable field. */
  predicate Delimited(c: Container) {
    c.fixed || c.groups != [] || Trailing(c.fields) == 0
  }

  predicate FieldIsNil(v: FieldValue) {
    match v
    case Num(n) => n == 0
    case Parts(vals) => forall i :: 0 <= i < |vals| ==> vals[i] == 0
    case Blob(bytes) => bytes == []
    case Elems(elems) => elems == []
    case Bits(_, bits) => bits == []
    case Void => false
  }

  /** The test `getHeader` uses to find the selected member of an exclusive group:
      every field differs from nil, or from zero when the type is inlined. */
  predicate Selected(v: Value) {
    forall i :: 0 <= i < |v.fields| ==> !FieldIsNil(v.fields[i])
  }

  /** Nothing in the value is lost in encoding or decoding: the member selected in an
      exclusive group is not its zero value; no TV parameter, which the decoder reads
      without moving past it, is present outside loops and choices; and no parameter has
      fixed fields that its decoder takes for leftover bytes. */
  predicate Clean(s: Schema, id: nat, v: Value)
    decreases v, 1
  {
    id in s && Delimited(s[id]) && GroupsClean(s, s[id].groups, v.groups)
  }

  predicate GroupsClean(s: Schema, gs: seq<Group>, gvs: seq<GroupValue>)
    decreases gvs, 0
  {
    |gs| == |gvs| &&
    (gs != [] ==>
       && SlotsClean(s, gs[0], gs[0].members, gvs[0].slots)
       && GroupsClean(s, gs[1..], gvs[1..]))
  }

  predicate SlotsClean(s: Schema, g: Group, ids: seq<nat>, slots: seq<Slot>)
    decreases slots, 0
  {
    |ids| == |slots| &&
    (ids != [] ==>
       && ItemsClean(s, g, ids[0], slots[0].items)
       && SlotsClean(s, g, ids[1..], slots[1..]))
  }

  predicate ItemsClean(s: Schema, g: Group, id: nat, items: seq<Value>)
    decreases items, 0
  {
    items != [] ==>
      && !(g.Simple() && IsTv(id))
      && (g.Exclusive() ==> Selected(items[0]))
      && Clean(s, id, items[0])
      && ItemsClean(s, g, id, items[1..])
  }

  // ---- schemas whose generated code is coherent ----

  predicate HasTv(ids: seq<nat>) {
    exists k :: 0 <= k < |ids| && IsTv(ids[k])
  }

  predicate HasTlv(ids: seq<nat>) {
    exists k :: 0 <= k < |ids| && !IsTv(ids[k])
  }

  /** What a group's switch takes the parameter type to be when it meets `id`: a group of
      TV parameters looks at the low seven bits of one byte, whatever the first bit. */
  function SeenAs(g: Group, id: nat): nat {
    if HasTv(g.members) && !HasTlv(g.members) && !IsTv(id) then id / 256 % 128 else id
  }

  /** A loop over TLV parameters takes the third and fourth byte of whatever comes next for
      its length before it looks at the type. */
  predicate LengthFirst(g: Group) {
    !g.Simple() && !g.Exclusive() && !HasTv(g.members)
  }

  /** No parameter of a later group can be taken for a member of this one, or for one that
      is longer than the data. */
  predicate Apart(g: Group, later: seq<Group>) {
    forall i, k :: 0 <= i < |later| && 0 <= k < |later[i].members| ==> AwayFrom(g, later[i].members[k])
  }

  predicate AwayFrom(g: Group, id: nat) {
    SeenAs(g, id) !in g.members && (IsTv(id) ==> !LengthFirst(g))
  }

  predicate Distinct(ids: seq<nat>) {
    forall i, j :: 0 <= i < j < |ids| ==> ids[i] != ids[j]
  }

  /** Required TLV parameters, one after the other, are taken for what they must be. */
  predicate InOrder(g: Group) {
    g.Simple() && !g.Exclusive() && !g.optional && !HasTv(g.members)
  }

  /** A group of distinct parameters that can be told apart from what follows it. */
  predicate GroupGood(g: Group, later: seq<Group>) {
    && g.members != []
    && Distinct(g.members)
    && (forall k :: 0 <= k < |g.members| ==> 0 < g.members[k] < 0x8000)
    && (InOrder(g) || Apart(g, later))
  }

  predicate GroupsGood(gs: seq<Group>) {
    gs == [] || (GroupGood(gs[0], gs[1..]) && GroupsGood(gs[1..]))
  }

  /** A single optional TLV parameter is looked for in two bytes, whatever follows. */
  predicate PeeksTwo(g: Group) {
    g.Simple() && g.optional && !HasTv(g.members)
  }

  predicate HasBytes(c: Container) {
    exists i :: 0 <= i < |c.fields| && MinSize(c.fields[i]) > 0
  }

  predicate VisibleTo(s: Schema, g: Group, id: nat) {
    PeeksTwo(g) && IsTv(id) ==> id in s && HasBytes(s[id])
  }

  /** Wherever two bytes are looked at, what may follow has as many. */
  predicate Visible(s: Schema, gs: seq<Group>) {
    gs == [] ||
    (&& (forall i, k :: 0 < i < |gs| && 0 <= k < |gs[i].members| ==> VisibleTo(s, gs[0], gs[i].members[k]))
     && Visible(s, gs[1..]))
  }

  predicate AllVisible(s: Schema) {
    forall id :: id in s ==> Visible(s, s[id].groups)
  }

  /** A `Remainder` takes everything, so it comes last and no parameter follows it. */
  predicate TailOk(c: Container) {
    forall i :: 0 <= i < |c.fields| && c.fields[i].Remainder? ==> i == |c.fields| - 1 && c.groups == []
  }

  /** Fields that can be read back, and the size that `set_param_sizes` finds fixed. */
  predicate FieldsGood(id: nat, c: Container) {
    && 0 < id < 0x8000
    && (forall i :: 0 <= i < |c.fields| ==> FieldOk(c.fields[i]))
    && (c.fixed ==> AllFixed(c.fields) && c.groups == [])
    && (AllFixed(c.fields) && c.groups == [] ==> c.fixed)
    && (IsTv(id) ==> c.fixed)
    && TailOk(c)
  }

  /** Some parameter is optional or repeatable. */
  predicate Open(gs: seq<Group>) {
    gs != [] && (gs[0].optional || gs[0].repeatable || Open(gs[1..]))
  }

  /** The generated `getHeader` adds up what it should: a fixed-size parameter's is a
      constant that leaves its sub-parameters out, and one with a variable field and only
      required parameters returns before it has collected them. */
  predicate Measured(c: Container) {
    c.groups == [] || (!c.fixed && (AllFixed(c.fields) || Open(c.groups)))
  }

  predicate ContainerGood(id: nat, c: Container) {
    FieldsGood(id, c) && GroupsGood(c.groups) && Measured(c)
  }
}
