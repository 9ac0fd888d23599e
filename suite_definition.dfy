/**
 * `_find_schemes_in_sdf`: the scheme names a suite definition calls, in order,
 * without repeats. The suite definition is an XML element tree; a node tagged
 * `scheme` (in any letter case) names a scheme by its text, every other node
 * groups further nodes.
 */
module SuiteDefinition {
  import opened Wrappers
  import opened Unique

  /** An XML element: its tag, its text (`None` when the element has none) and its child elements. */
  datatype Node = Node(tag: string, text: Option<string>, children: seq<Node>)

  function LowerChar(c: char): char
  {
    if 'A' <= c <= 'Z' then (c as int + 32) as char else c
  }

  /**
   * `str.lower()` on the ASCII letters, the only ones that can lower to a letter of
   * "scheme": no capital is left, every capital becomes the small letter at the same
   * place in the alphabet, and every other character is kept.
   */
  function Lower(s: string): (r: string)
    ensures |r| == |s|
    ensures forall i :: 0 <= i < |r| ==> !('A' <= r[i] <= 'Z')
    ensures forall i :: 0 <= i < |s| && 'A' <= s[i] <= 'Z' ==>
              'a' <= r[i] <= 'z' && r[i] as int - 'a' as int == s[i] as int - 'A' as int
    ensures forall i :: 0 <= i < |s| && !('A' <= s[i] <= 'Z') ==> r[i] == s[i]
  {
    seq(|s|, i requires 0 <= i < |s| => LowerChar(s[i]))
  }

  /** `item.tag.lower() == 'scheme'`. */
  predicate IsScheme(n: Node)
  {
    Lower(n.tag) == "scheme"
  }

  /** Tag matching ignores case: a tag is a scheme tag exactly when each letter is that of "scheme" or "SCHEME". */
  lemma SchemeTagIgnoresCase(n: Node)
    ensures IsScheme(n) <==> |n.tag| == 6 && forall i :: 0 <= i < 6 ==> n.tag[i] == "scheme"[i] || n.tag[i] == "SCHEME"[i]
  {
    if |n.tag| == 6 && forall i :: 0 <= i < 6 ==> n.tag[i] == "scheme"[i] || n.tag[i] == "SCHEME"[i] {
      assert Lower(n.tag) == "scheme";
    }
    if IsScheme(n) {
      forall i | 0 <= i < 6 ensures n.tag[i] == "scheme"[i] || n.tag[i] == "SCHEME"[i] {
        assert LowerChar(n.tag[i]) == "scheme"[i];
      }
    }
  }

  /** `if scheme_name and (scheme_name not in scheme_list): scheme_list.append(scheme_name)`. */
  function AddName(acc: seq<string>, text: Option<string>): seq<string>
  {
    if text.Some? && text.value != "" then AddNew(acc, text.value) else acc
  }

  // ---------------------------------------------------------------------------
  // The walk as written: each child of the part is examined; a non-scheme child
  // has its own children examined inline, and only a non-scheme grandchild is
  // handed to a recursive call, whose result is merged into the list.
  // ---------------------------------------------------------------------------

  /** `_find_schemes_in_sdf(suite_part)`. */
  function FindSchemesInSdf(part: Node): seq<string>
    decreases part, |part.children| + 2
  {
    Sections(part, 0, [])
  }

  /** The outer loop, `for section in suite_part`, from the `i`-th child on. */
  function Sections(part: Node, i: nat, acc: seq<string>): seq<string>
    requires i <= |part.children|
    decreases part, |part.children| - i + 1
  {
    if i == |part.children| then acc
    else Sections(part, i + 1, Section(part.children[i], acc))
  }

  /** The body of the outer loop for one `section`. */
  function Section(section: Node, acc: seq<string>): seq<string>
    decreases section, |section.children| + 1
  {
    if IsScheme(section) then AddName(acc, section.text)
    else SubSections(section, 0, acc)
  }

  /** The inner loop, `for sub_section in section`, from the `j`-th child on. */
  function SubSections(section: Node, j: nat, acc: seq<string>): seq<string>
    requires j <= |section.children|
    decreases section, |section.children| - j
  {
    if j == |section.children| then acc
    else SubSections(section, j + 1, SubSection(section.children[j], acc))
  }

  /** The body of the inner loop: a scheme is recorded inline, anything else is searched recursively. */
  function SubSection(sub: Node, acc: seq<string>): seq<string>
    decreases sub, |sub.children| + 3
  {
    if IsScheme(sub) then AddName(acc, sub.text)
    else Merge(acc, FindSchemesInSdf(sub))
  }

  // ---------------------------------------------------------------------------
  // Reference definition: a uniform pre-order descent that stops at every scheme
  // node and recurses into every other node, keeping non-empty names.
  // ---------------------------------------------------------------------------

  /** The non-empty name a scheme node's text gives, as a list of zero or one names. */
  function NameOf(text: Option<string>): seq<string>
  {
    if text.Some? && text.value != "" then [text.value] else []
  }

  /** Every scheme name below `n`, in pre-order, repeats included. */
  function Names(n: Node): seq<string>
    decreases n, |n.children| + 1
  {
    NamesFrom(n, 0)
  }

  function NamesFrom(n: Node, i: nat): seq<string>
    requires i <= |n.children|
    decreases n, |n.children| - i
  {
    if i == |n.children| then [] else Part(n.children[i]) + NamesFrom(n, i + 1)
  }

  /** What one child contributes: its own name if it is a scheme, else the names below it. */
  function Part(c: Node): seq<string>
    decreases c, |c.children| + 2
  {
    if IsScheme(c) then NameOf(c.text) else Names(c)
  }

  /** Recording a scheme's name is merging the names it contributes. */
  lemma AddNameIsMerge(acc: seq<string>, text: Option<string>)
    ensures AddName(acc, text) == Merge(acc, NameOf(text))
  {
  }

  /** The outer loop merges the names of the children it visits. */
  lemma {:induction false} SectionsMerge(part: Node, i: nat, acc: seq<string>)
    requires i <= |part.children|
    ensures Sections(part, i, acc) == Merge(acc, NamesFrom(part, i))
    decreases part, |part.children| - i + 1
  {
    if i < |part.children| {
      var c := part.children[i];
      SectionMerge(c, acc);
      SectionsMerge(part, i + 1, Section(c, acc));
      MergeAppend(acc, Part(c), NamesFrom(part, i + 1));
    }
  }

  lemma {:induction false} SectionMerge(section: Node, acc: seq<string>)
    ensures Section(section, acc) == Merge(acc, Part(section))
    decreases section, |section.children| + 1
  {
    if IsScheme(section) {
      AddNameIsMerge(acc, section.text);
    } else {
      SubSectionsMerge(section, 0, acc);
    }
  }

  lemma {:induction false} SubSectionsMerge(section: Node, j: nat, acc: seq<string>)
    requires j <= |section.children|
    ensures SubSections(section, j, acc) == Merge(acc, NamesFrom(section, j))
    decreases section, |section.children| - j
  {
    if j < |section.children| {
      var c := section.children[j];
      SubSectionMerge(c, acc);
      SubSectionsMerge(section, j + 1, SubSection(c, acc));
      MergeAppend(acc, Part(c), NamesFrom(section, j + 1));
    }
  }

  /** The recursive call returns a deduplicated list; merging it equals merging the raw names. */
  lemma {:induction false} SubSectionMerge(sub: Node, acc: seq<string>)
    ensures SubSection(sub, acc) == Merge(acc, Part(sub))
    decreases sub, |sub.children| + 3
  {
    if IsScheme(sub) {
      AddNameIsMerge(acc, sub.text);
    } else {
      FindSchemesIsDedup(sub);
      MergeDedup(acc, Names(sub));
    }
  }

  /**
   * The walk as written, with its inline one-level look-ahead, equals the uniform
   * descent followed by first-occurrence deduplication, at every depth.
   */
  lemma {:induction false} FindSchemesIsDedup(part: Node)
    ensures FindSchemesInSdf(part) == Dedup(Names(part))
    decreases part, |part.children| + 2
  {
    SectionsMerge(part, 0, []);
    MergeIsDedup([], Names(part));
    assert [] + Names(part) == Names(part);
  }

  /** The found names have no repeats and none is empty. */
  lemma FindSchemesWellFormed(part: Node)
    ensures NoDuplicates(FindSchemesInSdf(part))
    ensures "" !in FindSchemesInSdf(part)
  {
    FindSchemesIsDedup(part);
    NamesNonEmpty(part);
  }

  lemma {:induction false} NamesNonEmpty(n: Node)
    ensures "" !in Names(n)
    decreases n, |n.children| + 1
  {
    NamesFromNonEmpty(n, 0);
  }

  lemma {:induction false} NamesFromNonEmpty(n: Node, i: nat)
    requires i <= |n.children|
    ensures "" !in NamesFrom(n, i)
    decreases n, |n.children| - i
  {
    if i < |n.children| {
      var c := n.children[i];
      if !IsScheme(c) {
        NamesNonEmpty(c);
      }
      NamesFromNonEmpty(n, i + 1);
    }
  }

  /** A name is found exactly when some scheme node reachable through non-scheme nodes carries it. */
  lemma FindSchemesComplete(part: Node, name: string)
    ensures name in FindSchemesInSdf(part) <==> name != "" && SchemeBelow(part, name)
  {
    FindSchemesIsDedup(part);
    NamesReachable(part, name);
  }

  /** `name` is the text of a scheme node among the children of `n`, or below a non-scheme child. */
  predicate SchemeBelow(n: Node, name: string)
    decreases n, 0
  {
    exists i :: 0 <= i < |n.children| && SchemeAt(n.children[i], name)
  }

  predicate SchemeAt(c: Node, name: string)
    decreases c, 1
  {
    if IsScheme(c) then c.text == Some(name) else SchemeBelow(c, name)
  }

  lemma {:induction false} NamesReachable(n: Node, name: string)
    ensures name in Names(n) <==> name != "" && SchemeBelow(n, name)
    decreases n, |n.children| + 1
  {
    NamesFromReachable(n, 0, name);
  }

  lemma {:induction false} NamesFromReachable(n: Node, i: nat, name: string)
    requires i <= |n.children|
    ensures name in NamesFrom(n, i) <==> name != "" && exists k :: i <= k < |n.children| && SchemeAt(n.children[k], name)
    decreases n, |n.children| - i
  {
    if i < |n.children| {
      var c := n.children[i];
      NamesFromReachable(n, i + 1, name);
      if !IsScheme(c) {
        NamesReachable(c, name);
      }
      assert name in Part(c) <==> name != "" && SchemeAt(c, name);
    }
  }

  /** A scheme node is never descended into: what lies below it does not change the result. */
  lemma SchemeChildrenIgnored(part: Node, i: nat, grandchildren: seq<Node>)
    requires i < |part.children| && IsScheme(part.children[i])
    ensures var c := part.children[i];
            FindSchemesInSdf(part.(children := part.children[i := c.(children := grandchildren)]))
            == FindSchemesInSdf(part)
  {
    var c := part.children[i];
    var part' := part.(children := part.children[i := c.(children := grandchildren)]);
    FindSchemesIsDedup(part);
    FindSchemesIsDedup(part');
    NamesFromSame(part, part', 0);
  }

  lemma {:induction false} NamesFromSame(n: Node, n': Node, i: nat)
    requires |n.children| == |n'.children| && i <= |n.children|
    requires forall k :: 0 <= k < |n.children| ==> Part(n.children[k]) == Part(n'.children[k])
    ensures NamesFrom(n, i) == NamesFrom(n', i)
    decreases |n.children| - i
  {
    if i < |n.children| {
      NamesFromSame(n, n', i + 1);
    }
  }
}
