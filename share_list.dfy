/** The plain-text inventory summary that is handed to the share sheet:
    a header with the date, then the expired, expiring-soon and fresh
    items, each group under a heading that gives its size. */
module ShareList {
  import opened Wrappers
  import opened Types
  import Decimal

  /** The items with the given status, in order. */
  function Group(items: seq<InventoryItem>, status: ItemStatus): (g: seq<InventoryItem>)
    ensures |g| <= |items|
    ensures forall x :: x in g ==> x in items && x.status == status
  {
    if |items| == 0 then []
    else if items[0].status == status then [items[0]] + Group(items[1..], status)
    else Group(items[1..], status)
  }

  function Header(date: string): string {
    "\U{1F4E6} *SHI Inventory List* (" + date + ")\n\n"
  }

  function ItemLine(item: InventoryItem): string {
    "- " + item.name + " (" + item.expirationDate + ")\n"
  }

  /** The lines a `forEach` appends for a group, in group order. */
  function ItemLines(group: seq<InventoryItem>): string {
    if |group| == 0 then "" else ItemLines(group[..|group| - 1]) + ItemLine(group[|group| - 1])
  }

  /** A group's section: nothing for an empty group, otherwise the heading
      with the group's size, its lines, and a blank line when `spaced`. */
  function Section(heading: string, group: seq<InventoryItem>, spaced: bool): string {
    if |group| == 0 then ""
    else SectionHeading(heading, |group|) + ItemLines(group) + (if spaced then "\n" else "")
  }

  function SectionHeading(heading: string, count: nat): string {
    heading + " (" + Decimal.NatToString(count) + ")*\n"
  }

  const ExpiredHeading := "\U{1F534} *EXPIRED"
  const SoonHeading := "\U{1F7E1} *EXPIRING SOON"
  const FreshHeading := "\U{1F7E2} *FRESH"

  /** The message for `items` on the day written `date`; none for an empty
      list. */
  function ShareMessage(items: seq<InventoryItem>, date: string): (m: Option<string>)
    ensures m.None? <==> |items| == 0
  {
    if |items| == 0 then None
    else Some(Header(date)
              + Section(ExpiredHeading, Group(items, Expired), true)
              + Section(SoonHeading, Group(items, ExpiringSoon), true)
              + Section(FreshHeading, Group(items, Fresh), false))
  }

  /** One `forEach` loop: appends the group's lines to `text`. */
  method AppendItemLines(text: string, group: seq<InventoryItem>) returns (r: string)
    ensures r == text + ItemLines(group)
  {
    r := text;
    var i := 0;
    while i < |group|
      invariant 0 <= i <= |group|
      invariant r == text + ItemLines(group[..i])
    {
      assert group[..i + 1][..i] == group[..i];
      r := r + ItemLine(group[i]);
      i := i + 1;
    }
    assert group[..|group|] == group;
  }

  /** One `if (group.length > 0)` block: the heading, the group's lines
      and, when `spaced`, a blank line. */
  method AppendSection(text: string, heading: string, group: seq<InventoryItem>, spaced: bool) returns (r: string)
    ensures r == text + Section(heading, group, spaced)
  {
    r := text;
    if |group| > 0 {
      r := r + SectionHeading(heading, |group|);
      r := AppendItemLines(r, group);
      if spaced {
        r := r + "\n";
      }
    }
  }

  /** The message-building part of `shareInventoryList`. */
  method BuildShareMessage(items: seq<InventoryItem>, date: string) returns (message: Option<string>)
    ensures message == ShareMessage(items, date)
  {
    if |items| == 0 {
      return None;
    }
    var text := Header(date);
    var expiringSoon := Group(items, ExpiringSoon);
    var freshItems := Group(items, Fresh);
    var expired := Group(items, Expired);
    text := AppendSection(text, ExpiredHeading, expired, true);
    text := AppendSection(text, SoonHeading, expiringSoon, true);
    text := AppendSection(text, FreshHeading, freshItems, false);
    return Some(text);
  }

  /** Grouping keeps the relative order: it distributes over
      concatenation. */
  lemma {:induction false} GroupConcat(a: seq<InventoryItem>, b: seq<InventoryItem>, status: ItemStatus)
    ensures Group(a + b, status) == Group(a, status) + Group(b, status)
  {
    if |a| > 0 {
      assert (a + b)[0] == a[0];
      assert (a + b)[1..] == a[1..] + b;
      GroupConcat(a[1..], b, status);
    } else {
      assert a + b == b;
    }
  }

  /** The three groups split the list: every item lands in exactly one of
      them, as often as it occurs. */
  lemma {:induction false} GroupsPartition(items: seq<InventoryItem>)
    ensures multiset(Group(items, Expired)) + multiset(Group(items, ExpiringSoon)) + multiset(Group(items, Fresh))
            == multiset(items)
    ensures |Group(items, Expired)| + |Group(items, ExpiringSoon)| + |Group(items, Fresh)| == |items|
  {
    if |items| > 0 {
      GroupsPartition(items[1..]);
      assert items == [items[0]] + items[1..];
    }
  }

  /** A group holds exactly the items with that status, each as often as it
      occurs in the list. */
  lemma {:induction false} GroupCounts(items: seq<InventoryItem>, status: ItemStatus, x: InventoryItem)
    ensures multiset(Group(items, status))[x] == if x.status == status then multiset(items)[x] else 0
  {
    if |items| > 0 {
      GroupCounts(items[1..], status, x);
      assert items == [items[0]] + items[1..];
    }
  }

  /** The lines of a group are the lines of its parts, in order. */
  lemma {:induction false} ItemLinesConcat(a: seq<InventoryItem>, b: seq<InventoryItem>)
    ensures ItemLines(a + b) == ItemLines(a) + ItemLines(b)
  {
    if |b| > 0 {
      assert (a + b)[..|a + b| - 1] == a + b[..|b| - 1];
      ItemLinesConcat(a, b[..|b| - 1]);
    } else {
      assert a + b == a;
    }
  }

  function CountChar(s: string, c: char): nat {
    if |s| == 0 then 0 else (if s[0] == c then 1 else 0) + CountChar(s[1..], c)
  }

  lemma {:induction false} CountCharConcat(s: string, t: string, c: char)
    ensures CountChar(s + t, c) == CountChar(s, c) + CountChar(t, c)
  {
    if |s| > 0 {
      assert (s + t)[1..] == s[1..] + t;
      CountCharConcat(s[1..], t, c);
    } else {
      assert s + t == t;
    }
  }

  /** With names and dates free of line breaks, a group's lines hold
      exactly one line break per item: each item makes one line. */
  lemma {:induction false} OneLinePerItem(group: seq<InventoryItem>)
    requires forall i :: 0 <= i < |group| ==> CountChar(group[i].name, '\n') == 0 && CountChar(group[i].expirationDate, '\n') == 0
    ensures CountChar(ItemLines(group), '\n') == |group|
  {
    if |group| > 0 {
      var last := group[|group| - 1];
      OneLinePerItem(group[..|group| - 1]);
      CountCharConcat(ItemLines(group[..|group| - 1]), ItemLine(last), '\n');
      CountCharConcat("- " + last.name + " (" + last.expirationDate, ")\n", '\n');
      CountCharConcat("- " + last.name + " (", last.expirationDate, '\n');
      CountCharConcat("- " + last.name, " (", '\n');
      CountCharConcat("- ", last.name, '\n');
    }
  }

  /** A section is absent exactly when its group is empty. */
  lemma SectionPresent(heading: string, group: seq<InventoryItem>, spaced: bool)
    ensures Section(heading, group, spaced) == "" <==> |group| == 0
  {
    if |group| > 0 {
      assert |SectionHeading(heading, |group|)| >= |")*\n"|;
    }
  }

  lemma PrefixAndSuffix(h: string, e: string, s: string, f: string)
    ensures var m := h + e + s + f; |m| >= |h| + |f| && m[..|h|] == h && m[|m| - |f|..] == f
  {
    var m := h + e + s + f;
    assert m == h + (e + s + f);
    assert m[..|h|] == h;
  }

  /** The message starts with the header and its blank line, and ends with
      the fresh section. */
  lemma MessageLayout(items: seq<InventoryItem>, date: string)
    requires |items| > 0
    ensures var m := ShareMessage(items, date).value;
      var f := Section(FreshHeading, Group(items, Fresh), false);
      && |m| >= |Header(date)| + |f| && m[..|Header(date)|] == Header(date) && m[|m| - |f|..] == f
  {
    PrefixAndSuffix(Header(date), Section(ExpiredHeading, Group(items, Expired), true),
                    Section(SoonHeading, Group(items, ExpiringSoon), true), Section(FreshHeading, Group(items, Fresh), false));
  }
}
