/**
 JSON texts with white space: a tree together with the blanks that stand between its tokens,
 any run of the four of RFC 8259, section 2. The compact printing is the layout without blanks.
 */
module JsonLayout {
  import opened Wrappers
  import opened JsonText

  predicate AllBlank(s: string) {
    forall i | 0 <= i < |s| :: s[i] in " \t\n\r"
  }

  type Blanks = s: string | AllBlank(s) witness ""

  /** A value that is neither an array nor an object. */
  type Flat = v: Json | !v.Arr? && !v.Obj? witness Null

  datatype LaidItem = LaidItem(before: Blanks, value: Laid, after: Blanks)

  datatype LaidMember = LaidMember(before: Blanks, key: string, afterKey: Blanks,
                                   beforeValue: Blanks, value: Laid, after: Blanks)

  /** `inner` are the blanks between the brackets of an empty container. */
  datatype Laid =
    | Atom(v: Flat)
    | LaidArr(inner: Blanks, items: seq<LaidItem>)
    | LaidObj(inner: Blanks, members: seq<LaidMember>)

  // -------------------------------------------------------------------- the text

  function Text(l: Laid): string
    decreases l
  {
    match l
    case Atom(v) => Print(v)
    case LaidArr(inner, items) => ['['] + (if |items| == 0 then inner else ItemsText(items)) + [']']
    case LaidObj(inner, members) => ['{'] + (if |members| == 0 then inner else MembersText(members)) + ['}']
  }

  function ItemText(i: LaidItem): string
    decreases i
  {
    i.before + Text(i.value) + i.after
  }

  function ItemsText(items: seq<LaidItem>): string
    decreases items
  {
    if |items| == 0 then ""
    else if |items| == 1 then ItemText(items[0])
    else ItemText(items[0]) + "," + ItemsText(items[1..])
  }

  function MemberText(m: LaidMember): string
    decreases m
  {
    m.before + PrintString(m.key) + m.afterKey + ":" + m.beforeValue + Text(m.value) + m.after
  }

  function MembersText(members: seq<LaidMember>): string
    decreases members
  {
    if |members| == 0 then ""
    else if |members| == 1 then MemberText(members[0])
    else MemberText(members[0]) + "," + MembersText(members[1..])
  }

  // -------------------------------------------------------------------- the tree

  /** The tree a text stands for: its blanks mean nothing. */
  function Tree(l: Laid): Json
    decreases l
  {
    match l
    case Atom(v) => v
    case LaidArr(_, items) => Arr(TreeItems(items))
    case LaidObj(_, members) => Obj(TreeMembers(members))
  }

  function TreeItems(items: seq<LaidItem>): (r: seq<Json>)
    ensures |r| == |items|
    decreases items
  {
    if |items| == 0 then [] else [Tree(items[0].value)] + TreeItems(items[1..])
  }

  function TreeMembers(members: seq<LaidMember>): (r: seq<Member>)
    ensures |r| == |members|
    decreases members
  {
    if |members| == 0 then []
    else [Member(members[0].key, Tree(members[0].value))] + TreeMembers(members[1..])
  }

  lemma {:induction false} TreeMemberAt(members: seq<LaidMember>, k: nat)
    requires k < |members|
    ensures TreeMembers(members)[k] == Member(members[k].key, Tree(members[k].value))
  {
    hide Tree;
    if k > 0 {
      TreeMemberAt(members[1..], k - 1);
    }
  }

  // -------------------------------------------------------------- without blanks

  function Compact(v: Json): Laid
    decreases v
  {
    match v
    case Arr(items) => LaidArr("", CompactItems(items))
    case Obj(members) => LaidObj("", CompactMembers(members))
    case _ => Atom(v)
  }

  function CompactItems(items: seq<Json>): (r: seq<LaidItem>)
    ensures |r| == |items|
    decreases items
  {
    if |items| == 0 then [] else [LaidItem("", Compact(items[0]), "")] + CompactItems(items[1..])
  }

  function CompactMembers(members: seq<Member>): (r: seq<LaidMember>)
    ensures |r| == |members|
    decreases members
  {
    if |members| == 0 then []
    else [LaidMember("", members[0].key, "", "", Compact(members[0].value), "")] + CompactMembers(members[1..])
  }

  /** Every tree has its compact layout, whose text is the compact printing. */
  lemma {:induction false} CompactIsPrint(v: Json)
    ensures Text(Compact(v)) == Print(v) && Tree(Compact(v)) == v
    decreases v
  {
    match v
    case Arr(items) =>
      CompactItemsArePrint(items);
    case Obj(members) =>
      CompactMembersArePrint(members);
    case _ =>
  }

  lemma {:induction false} CompactItemsArePrint(items: seq<Json>)
    ensures ItemsText(CompactItems(items)) == PrintItems(items) && TreeItems(CompactItems(items)) == items
    decreases items
  {
    hide Text, Print, Compact, Tree;
    if |items| > 0 {
      CompactIsPrint(items[0]);
      CompactItemsArePrint(items[1..]);
      assert CompactItems(items)[1..] == CompactItems(items[1..]);
      assert "" + Print(items[0]) + "" == Print(items[0]);
    }
  }

  lemma {:induction false} CompactMembersArePrint(members: seq<Member>)
    ensures MembersText(CompactMembers(members)) == PrintMembers(members)
    ensures TreeMembers(CompactMembers(members)) == members
    decreases members
  {
    hide Text, Print, Compact, Tree, MemberText, PrintMember;
    if |members| > 0 {
      var m := members[0];
      CompactIsPrint(m.value);
      CompactMembersArePrint(members[1..]);
      assert CompactMembers(members)[1..] == CompactMembers(members[1..]);
      CompactMemberIsPrint(m, CompactMembers(members)[0]);
    }
  }

  lemma CompactMemberIsPrint(m: Member, laid: LaidMember)
    requires laid == LaidMember("", m.key, "", "", Compact(m.value), "") && Text(laid.value) == Print(m.value)
    ensures MemberText(laid) == PrintMember(m)
  {
    hide Text, Print, PrintString;
  }
}
