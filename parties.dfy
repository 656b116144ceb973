/** The "Parties" section: the scan that splits the party paragraph's children
    into party mentions, quoted party labels and the remaining text. */
module Parties {
  import opened Doc
  import opened Strings

  /** The position of the first paragraph child, or `|kids|` when there is none. */
  function ParagraphIndex(kids: seq<Node>): (i: nat)
    ensures i <= |kids|
    ensures i < |kids| ==> HasType(kids[i], "p")
  {
    if kids == [] || HasType(kids[0], "p") then 0 else 1 + ParagraphIndex(kids[1..])
  }

  /** `node.children?.find((c) => c.type === "p")`: the first paragraph child. */
  function FirstParagraph(kids: seq<Node>): (r: Option<Node>)
    ensures r.Some? ==> HasType(r.value, "p")
  {
    var i := ParagraphIndex(kids);
    if i < |kids| then Some(kids[i]) else None
  }

  lemma {:induction false} NoParagraphBefore(kids: seq<Node>)
    ensures forall j :: 0 <= j < ParagraphIndex(kids) ==> !HasType(kids[j], "p")
  {
    if kids != [] && !HasType(kids[0], "p") {
      NoParagraphBefore(kids[1..]);
      assert forall j :: 1 <= j < |kids| ==> kids[j] == kids[1..][j - 1];
    }
  }

  /** `find` gives nothing exactly when no child is a paragraph, and otherwise the
      paragraph child that comes before every other one. */
  lemma FirstParagraphFinds(kids: seq<Node>)
    ensures FirstParagraph(kids).None? <==> forall i :: 0 <= i < |kids| ==> !HasType(kids[i], "p")
    ensures FirstParagraph(kids).Some? ==>
              exists i :: 0 <= i < |kids| && kids[i] == FirstParagraph(kids).value && HasType(kids[i], "p")
                          && forall j :: 0 <= j < i ==> !HasType(kids[j], "p")
  {
    NoParagraphBefore(kids);
    var i := ParagraphIndex(kids);
    if i < |kids| {
      assert kids[i] == FirstParagraph(kids).value;
    }
  }

  /** What the regular expression `/"[^"]*"/` finds: a double quote, a run of
      characters without one, and a second double quote. */
  ghost predicate QuotedRun(s: string) {
    exists i, j :: RunAt(s, i, j)
  }

  /** The match from position `i` to position `j`: a quote at each end and none in
      between. */
  predicate RunAt(s: string, i: int, j: int) {
    0 <= i < j < |s| && s[i] == '"' && s[j] == '"' && NoQuoteBetween(s, i, j)
  }

  /** No double quote strictly between positions `i` and `j`. */
  predicate NoQuoteBetween(s: string, i: int, j: int)
    requires 0 <= i < j <= |s|
  {
    forall k :: i < k < j ==> s[k] != '"'
  }

  /** The test the model uses in place of the regular expression. */
  predicate HasTwoQuotes(s: string) {
    Count(s, '"') >= 2
  }

  /** The position of the first double quote, or `|s|` when there is none. */
  function QuoteIndex(s: string): (j: nat)
    ensures j <= |s|
    ensures forall k :: 0 <= k < j ==> s[k] != '"'
    ensures j < |s| ==> s[j] == '"'
    ensures Count(s, '"') >= 1 ==> j < |s|
  {
    if s == [] || s[0] == '"' then 0 else 1 + QuoteIndex(s[1..])
  }

  lemma {:induction false} QuoteCounts(s: string, i: nat)
    requires i < |s| && s[i] == '"'
    ensures Count(s, '"') >= 1
  {
    if i > 0 {
      QuoteCounts(s[1..], i - 1);
    }
  }

  /** The regular expression matches exactly when the text holds at least two
      double quotes. */
  lemma {:induction false} RegexIsTwoQuotes(s: string)
    ensures QuotedRun(s) <==> HasTwoQuotes(s)
  {
    if HasTwoQuotes(s) {
      var i, j := FirstRun(s);
    }
    if QuotedRun(s) {
      var i, j :| RunAt(s, i, j);
      RunGivesTwoQuotes(s, i, j);
    }
  }

  /** Two double quotes always enclose a quote-free run: the first match of the
      regular expression, from the first quote to the next one. */
  lemma {:induction false} FirstRun(s: string) returns (i: nat, j: nat)
    requires HasTwoQuotes(s)
    ensures RunAt(s, i, j)
  {
    if s[0] == '"' {
      i, j := 0, 1 + QuoteIndex(s[1..]);
    } else {
      var i', j' := FirstRun(s[1..]);
      i, j := i' + 1, j' + 1;
    }
  }

  lemma {:induction false} RunGivesTwoQuotes(s: string, i: nat, j: nat)
    requires i < j < |s| && s[i] == '"' && s[j] == '"'
    ensures HasTwoQuotes(s)
  {
    if i > 0 {
      RunGivesTwoQuotes(s[1..], i - 1, j - 1);
    } else {
      QuoteCounts(s[1..], j - 1);
    }
  }

  /** `child.type === "mention"` */
  predicate IsMention(k: Node) {
    HasType(k, "mention")
  }

  /** `typeof child.text === "string" && /"[^"]*"/.test(child.text)` */
  predicate IsQuotedText(k: Node) {
    k.text.Some? && HasTwoQuotes(k.text.value)
  }

  /** A child the scan files while it is still collecting. */
  predicate Collectable(k: Node) {
    IsMention(k) || IsQuotedText(k)
  }

  /** Where the scan stops collecting: the length of the longest prefix of mentions
      and quoted texts. */
  function PrefixLen(kids: seq<Node>): (p: nat)
    ensures p <= |kids|
    ensures forall j :: 0 <= j < p ==> Collectable(kids[j])
    ensures p < |kids| ==> !Collectable(kids[p])
  {
    if kids == [] || !Collectable(kids[0]) then 0
    else
      var p := 1 + PrefixLen(kids[1..]);
      assert forall j :: 1 <= j < |kids| ==> kids[j] == kids[1..][j - 1];
      p
  }

  /** The mentions of a list, in order. */
  function MentionsOf(s: seq<Node>): seq<Node> {
    if s == [] then []
    else MentionsOf(s[..|s| - 1]) + (if IsMention(s[|s| - 1]) then [s[|s| - 1]] else [])
  }

  /** The children of a list that are not mentions, in order. */
  function OthersOf(s: seq<Node>): seq<Node> {
    if s == [] then []
    else OthersOf(s[..|s| - 1]) + (if IsMention(s[|s| - 1]) then [] else [s[|s| - 1]])
  }

  /** The `forEach` scan over the party paragraph's children. It collects while the
      children are mentions or quoted texts; from the first child that is neither,
      every child goes to `rest`. */
  method ScanParties(kids: seq<Node>) returns (mentions: seq<Node>, labels: seq<Node>, rest: seq<Node>)
    ensures var p := PrefixLen(kids);
            && mentions == MentionsOf(kids[..p])
            && labels == OthersOf(kids[..p])
            && rest == kids[p..]
  {
    ghost var p := PrefixLen(kids);
    mentions, labels, rest := [], [], [];
    var collecting := true;
    var i := 0;
    while i < |kids|
      invariant 0 <= i <= |kids|
      invariant collecting ==> i <= p && mentions == MentionsOf(kids[..i])
                               && labels == OthersOf(kids[..i]) && rest == []
      invariant !collecting ==> p < i && mentions == MentionsOf(kids[..p])
                                && labels == OthersOf(kids[..p]) && rest == kids[p..i]
    {
      var child := kids[i];
      assert kids[..i + 1][..i] == kids[..i];
      if IsMention(child) && collecting {
        mentions := mentions + [child];
      } else if collecting && child.text.Some? && HasTwoQuotes(child.text.value) {
        labels := labels + [child];
      } else {
        if collecting {
          assert !Collectable(child);
          assert i == p;
        }
        collecting := false;
        rest := rest + [child];
        assert kids[p..i + 1] == kids[p..i] + [kids[i]];
      }
      i := i + 1;
    }
    assert kids[..i] == kids;
  }

  /** The mentions of a list and its other children are as many as its children. */
  lemma {:induction false} SplitSizes(s: seq<Node>)
    ensures |MentionsOf(s)| + |OthersOf(s)| == |s|
  {
    if s != [] {
      SplitSizes(s[..|s| - 1]);
    }
  }

  /** Together they hold the children of the list, each once. */
  lemma {:induction false} SplitBags(s: seq<Node>)
    ensures multiset(MentionsOf(s)) + multiset(OthersOf(s)) == multiset(s)
  {
    if s != [] {
      var init, last := s[..|s| - 1], s[|s| - 1];
      SplitBags(init);
      assert s == init + [last];
      SplitBagsStep(init, last);
    }
  }

  lemma SplitBagsStep(init: seq<Node>, last: Node)
    requires multiset(MentionsOf(init)) + multiset(OthersOf(init)) == multiset(init)
    ensures var s := init + [last];
            multiset(MentionsOf(s)) + multiset(OthersOf(s)) == multiset(s)
  {
    var s := init + [last];
    assert s[..|s| - 1] == init;
    BagOfSnoc(init, last);
    if IsMention(last) {
      assert MentionsOf(s) == MentionsOf(init) + [last] && OthersOf(s) == OthersOf(init);
      BagOfSnoc(MentionsOf(init), last);
      BagSwap(multiset(MentionsOf(init)), multiset(OthersOf(init)), multiset{last});
    } else {
      assert MentionsOf(s) == MentionsOf(init) && OthersOf(s) == OthersOf(init) + [last];
      BagOfSnoc(OthersOf(init), last);
    }
  }

  lemma BagOfSnoc<T>(a: seq<T>, x: T)
    ensures multiset(a + [x]) == multiset(a) + multiset{x}
  {
  }

  lemma BagOfSplit<T>(s: seq<T>, p: nat)
    requires p <= |s|
    ensures multiset(s[..p]) + multiset(s[p..]) == multiset(s)
  {
    assert s == s[..p] + s[p..];
  }

  lemma BagSwap<T>(x: multiset<T>, y: multiset<T>, z: multiset<T>)
    ensures (x + z) + y == (x + y) + z
  {
  }

  lemma {:induction false} SplitKinds(s: seq<Node>)
    ensures forall k :: 0 <= k < |MentionsOf(s)| ==> IsMention(MentionsOf(s)[k])
    ensures forall k :: 0 <= k < |OthersOf(s)| ==> !IsMention(OthersOf(s)[k])
  {
    if s != [] {
      SplitKinds(s[..|s| - 1]);
    }
  }

  /** Every child lands in exactly one of the three lists, and
      `children.slice(mentions.length + labels.length)` — what the section actually
      renders after the party lines — is the `rest` list. */
  lemma ScanPartition(kids: seq<Node>)
    ensures var p := PrefixLen(kids);
            var m := MentionsOf(kids[..p]);
            var l := OthersOf(kids[..p]);
            && |m| + |l| == p
            && multiset(m) + multiset(l) + multiset(kids[p..]) == multiset(kids)
            && kids[|m| + |l|..] == kids[p..]
  {
    var p := PrefixLen(kids);
    var front := kids[..p];
    SplitSizes(front);
    SplitBags(front);
    BagOfSplit(kids, p);
  }

  /** The mentions are mentions, and the labels are quoted texts that are not. */
  lemma ScanKinds(kids: seq<Node>)
    ensures var p := PrefixLen(kids);
            var m := MentionsOf(kids[..p]);
            var l := OthersOf(kids[..p]);
            && (forall k :: 0 <= k < |m| ==> IsMention(m[k]))
            && (forall k :: 0 <= k < |l| ==> IsQuotedText(l[k]) && !IsMention(l[k]))
  {
    var front := kids[..PrefixLen(kids)];
    SplitKinds(front);
    OthersAreCollected(front);
  }

  lemma {:induction false} OthersAreCollected(s: seq<Node>)
    requires forall j :: 0 <= j < |s| ==> Collectable(s[j])
    ensures forall k :: 0 <= k < |OthersOf(s)| ==> IsQuotedText(OthersOf(s)[k])
  {
    if s != [] {
      OthersAreCollected(s[..|s| - 1]);
    }
  }

  /** The scan stops at the first child that is neither a mention nor a quoted
      text, and `rest` starts there. */
  lemma RestStartsAtFirstOther(kids: seq<Node>, q: nat)
    requires q < |kids| && !Collectable(kids[q])
    requires forall j :: 0 <= j < q ==> Collectable(kids[j])
    ensures PrefixLen(kids) == q
  {
  }
}
