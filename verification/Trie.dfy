/** trie/trie.go, over strings of code points. */
module Tries {
  import opened WhiteSpace

  class Node {
    var children: map<char, Node>
    var isEndOfWord: bool

    constructor ()
      ensures children == map[] && !isEndOfWord
    {
      children, isEndOfWord := map[], false;
    }
  }

  /** What the children maps hold, node by node. */
  type Kids = map<Node, map<char, Node>>

  /** The nodes form a tree: each stands for one string, that of its parent with one more character. */
  ghost predicate Tree(nodes: map<string, Node>, kids: Kids) {
    && "" in nodes && (forall p :: p in nodes ==> nodes[p] in kids)
    && (forall p, q :: p in nodes && q in nodes && nodes[p] == nodes[q] ==> p == q)
    && (forall p, c :: p in nodes ==> (c in kids[nodes[p]] <==> p + [c] in nodes))
    && (forall p, c :: p in nodes && c in kids[nodes[p]] ==> kids[nodes[p]][c] == nodes[p + [c]])
  }

  predicate Closed(keys: set<string>) {
    forall p :: p in keys && p != "" ==> p[..|p| - 1] in keys
  }

  lemma Edge(nodes: map<string, Node>, kids: Kids, p: string, c: char)
    requires Tree(nodes, kids) && p in nodes
    ensures c in kids[nodes[p]] <==> p + [c] in nodes
    ensures c in kids[nodes[p]] ==> kids[nodes[p]][c] == nodes[p + [c]] && nodes[p + [c]] in kids
  {
  }

  lemma MarksAt(nodes: map<string, Node>, ends: set<Node>, words: set<string>, p: string)
    requires Marks(nodes, ends, words)
    ensures words <= nodes.Keys && "" !in words && (p in nodes ==> (nodes[p] in ends <==> p in words))
  {
  }

  lemma RootIsNode(nodes: map<string, Node>, kids: Kids)
    requires Tree(nodes, kids)
    ensures "" in nodes && nodes[""] in kids
  {
  }

  /** A new node is not marked. */
  lemma MarksOfMore(nodes: map<string, Node>, kids: Kids, ends: set<Node>, words: set<string>, p: string, c: char, child: Node)
    requires Marks(nodes, ends, words) && ends <= kids.Keys && child !in kids && p + [c] !in nodes
    ensures Marks(nodes[p + [c] := child], ends, words)
  {
  }

  lemma SameChild(q: string, d: char, p: string, c: char)
    ensures q + [d] == p + [c] <==> q == p && d == c
  {
    assert (q + [d])[..|q|] == q && (p + [c])[..|p|] == p;
    assert (q + [d])[|q|] == d && (p + [c])[|p|] == c;
  }

  lemma ClosedWith(keys: set<string>, p: string, c: char)
    requires Closed(keys) && p in keys
    ensures Closed(keys + {p + [c]})
  {
    assert (p + [c])[..|p|] == p;
  }

  /** The marked nodes stand for exactly these words. */
  ghost predicate Marks(nodes: map<string, Node>, ends: set<Node>, words: set<string>) {
    "" !in words && words <= nodes.Keys && forall p :: p in nodes ==> (nodes[p] in ends <==> p in words)
  }

  /** There are no other nodes than the words need. */
  ghost predicate Needed(keys: set<string>, words: set<string>) {
    forall p :: p in keys && p != "" ==> exists w :: w in words && p <= w
  }

  lemma NeededByMore(keys: set<string>, words: set<string>, word: string)
    requires Needed(keys, words)
    ensures Needed(keys, words + {word})
  {
    forall p | p in keys && p != "" ensures exists w :: w in words + {word} && p <= w {
      var w :| w in words && p <= w;
      assert w in words + {word};
    }
  }

  lemma NeededWith(keys: set<string>, words: set<string>, word: string, k: nat)
    requires Needed(keys, words) && word in words && k <= |word|
    ensures Needed(keys + {word[..k]}, words)
  {
    assert word[..k] <= word;
  }

  /** A new child for a character makes a tree of a tree. */
  lemma TreeWith(nodes: map<string, Node>, kids: Kids, p: string, c: char, child: Node)
    requires Tree(nodes, kids) && Closed(nodes.Keys) && p in nodes && c !in kids[nodes[p]] && child !in kids
    ensures Tree(nodes[p + [c] := child], kids[nodes[p] := kids[nodes[p]][c := child]][child := map[]])
  {
    var more, node := nodes[p + [c] := child], nodes[p];
    var kids' := kids[node := kids[node][c := child]][child := map[]];
    forall q, d | q in more ensures d in kids'[more[q]] <==> q + [d] in more {
      SameChild(q, d, p, c);
      if q == p + [c] {
        assert (q + [d])[..|q + [d]| - 1] == q;
      }
    }
    forall q, d | q in more && d in kids'[more[q]] ensures kids'[more[q]][d] == more[q + [d]] {
      SameChild(q, d, p, c);
    }
  }

  lemma MarksWith(nodes: map<string, Node>, kids: Kids, ends: set<Node>, words: set<string>, word: string)
    requires Tree(nodes, kids) && Marks(nodes, ends, words) && word in nodes && word != ""
    ensures Marks(nodes, ends + {nodes[word]}, words + {word})
  {
  }

  class Trie {
    const root: Node
    ghost var nodes: map<string, Node>
    ghost var words: set<string>
    ghost var kids: Kids
    ghost var ends: set<Node>

    /** The nodes are as `kids` and `ends` tell. */
    ghost predicate Tied()
      reads this, kids.Keys
    {
      ends <= kids.Keys && forall n :: n in kids ==> n.children == kids[n] && (n.isEndOfWord <==> n in ends)
    }

    lemma TiedAt(n: Node)
      requires Tied() && n in kids
      ensures n.children == kids[n] && (n.isEndOfWord <==> n in ends)
    {
    }

    /** They are a tree that tells the trie's words and has no more nodes than these strings need. */
    ghost predicate Shaped(needed: set<string>)
      reads this
    {
      Tree(nodes, kids) && Closed(nodes.Keys) && Marks(nodes, ends, words) && Needed(nodes.Keys, needed) && nodes[""] == root
    }

    ghost predicate Valid()
      reads this, kids.Keys
    {
      Tied() && Shaped(words)
    }

    /** The node of a string. */
    ghost predicate At(p: string, node: Node)
      reads this
    {
      p in nodes && nodes[p] == node && node in kids
    }

    constructor ()
      ensures Valid() && words == {} && fresh(kids.Keys)
    {
      root := new Node();
      new;
      nodes, words, kids, ends := map["" := root], {}, map[root := map[]], {};
    }

    /** A new child of a node. */
    method Sprout(node: Node, ghost p: string, c: char) returns (child: Node)
      requires Tied() && Tree(nodes, kids) && Closed(nodes.Keys) && Marks(nodes, ends, words) && At(p, node) && p + [c] !in nodes
      modifies this`nodes, this`kids, node`children
      ensures Tied() && Tree(nodes, kids) && Marks(nodes, ends, words) && At(p + [c], child)
      ensures nodes == old(nodes)[p + [c] := child]
      ensures kids.Keys == old(kids.Keys) + {child} && fresh(child)
    {
      hide Closed, Tree, Marks;
      Edge(nodes, kids, p, c);
      TiedAt(node);
      child := new Node();
      TreeWith(nodes, kids, p, c, child);
      MarksOfMore(nodes, kids, ends, words, p, c, child);
      node.children := node.children[c := child];
      kids := kids[node := node.children][child := map[]];
      nodes := nodes[p + [c] := child];
    }

    /** The node for one more character of the word, made if there is none. */
    method Child(node: Node, ghost word: string, ghost i: nat, c: char) returns (child: Node)
      requires i < |word| && word[i] == c && Tied() && Shaped(words + {word}) && At(word[..i], node)
      modifies this`nodes, this`kids, node`children
      ensures Tied() && Shaped(words + {word}) && At(word[..i + 1], child)
      ensures kids.Keys == old(kids.Keys) + {child} && (child in old(kids.Keys) || fresh(child))
    {
      hide Closed, Needed, Tree, Marks;
      ghost var p := word[..i];
      assert word[..i + 1] == p + [c];
      Edge(nodes, kids, p, c);
      RootIsNode(nodes, kids);
      if c in node.children {
        child := node.children[c];
        assert kids.Keys == kids.Keys + {child};
      } else {
        hide Tied;
        ClosedWith(nodes.Keys, p, c);
        NeededWith(nodes.Keys, words + {word}, word, i + 1);
        ghost var keys := nodes.Keys;
        child := Sprout(node, p, c);
        assert nodes.Keys == keys + {p + [c]};
      }
    }

    /** Walks down to the word's node, making those that are missing. */
    method Path(word: string) returns (node: Node)
      requires Valid()
      modifies this`nodes, this`kids, kids.Keys`children
      ensures Tied() && Shaped(words + {word}) && At(word, node) && fresh(kids.Keys - old(kids.Keys))
    {
      NeededByMore(nodes.Keys, words, word);
      RootIsNode(nodes, kids);
      hide Closed, Needed, Tree, Marks;
      node := root;
      for i := 0 to |word|
        invariant Tied() && Shaped(words + {word}) && At(word[..i], node) && fresh(kids.Keys - old(kids.Keys))
      {
        hide Shaped, Tied;
        node := Child(node, word, i, word[i]);
      }
      assert word[..|word|] == word;
    }

    /** The word, trimmed, joins the words of the trie, unless nothing is left of it. */
    method Insert(text: string)
      requires Valid()
      modifies this, kids.Keys
      ensures Valid() && words == old(words) + (if Trimmed(text) == "" then {} else {Trimmed(text)})
      ensures fresh(kids.Keys - old(kids.Keys))
    {
      hide Closed, Needed, Tree, Marks, Tied;
      var word := Trimmed(text);
      if word == "" {
        return;
      }
      var node := Path(word);
      MarksWith(nodes, kids, ends, words, word);
      Mark(node, word);
    }

    /** The node is marked as the end of the word. */
    method Mark(node: Node, ghost word: string)
      requires Tied() && node in kids
      modifies this`ends, this`words, node`isEndOfWord
      ensures Tied() && ends == old(ends) + {node} && words == old(words) + {word}
    {
      node.isEndOfWord := true;
      words, ends := words + {word}, ends + {node};
    }

    /** Found exactly when a word of the trie is a prefix of the input; the string, if asked for, is the shortest. */
    method Traverse(input: string, buildString: bool) returns (found: bool, matched: string)
      requires Valid()
      ensures found <==> exists w :: w in words && w <= input
      ensures found && buildString ==> matched in words && matched <= input && forall w :: w in words && w <= input ==> matched <= w
      ensures !(found && buildString) ==> matched == ""
    {
      hide Closed, Needed, Tree, Marks, Tied;
      RootIsNode(nodes, kids);
      MarksAt(nodes, ends, words, "");
      var node := root;
      matched := "";
      for i := 0 to |input|
        invariant At(input[..i], node)
        invariant forall k :: 0 <= k <= i ==> input[..k] !in words
        invariant matched == if buildString then input[..i] else ""
      {
        assert input[..i + 1] == input[..i] + [input[i]];
        Edge(nodes, kids, input[..i], input[i]);
        MarksAt(nodes, ends, words, input[..i + 1]);
        TiedAt(node);
        if input[i] !in node.children {
          OneOf(words, input, i);
          NoWordBeyond(nodes.Keys, words, input, i + 1);
          return false, "";
        }
        node := node.children[input[i]];
        TiedAt(node);
        if buildString {
          matched := matched + [input[i]];
        }
        if node.isEndOfWord {
          OneOf(words, input, i);
          return true, matched;
        }
      }
      OneOf(words, input, |input|);
      return false, "";
    }

    method GetMatchedPrefixWord(input: string) returns (found: bool, matched: string)
      requires Valid()
      ensures found <==> exists w :: w in words && w <= input
      ensures if found then matched in words && matched <= input && forall w :: w in words && w <= input ==> matched <= w
              else matched == ""
    {
      found, matched := Traverse(input, true);
    }

    method HasMatchedPrefixWords(input: string) returns (found: bool)
      requires Valid()
      ensures found <==> exists w :: w in words && w <= input
    {
      var matched;
      found, matched := Traverse(input, false);
    }
  }

  /** Every prefix of a node's string has a node. */
  lemma {:induction false} PrefixClosed(keys: set<string>, p: string, k: nat)
    requires Closed(keys) && p in keys && k <= |p|
    ensures p[..k] in keys
    decreases |p|
  {
    if k < |p| {
      PrefixClosed(keys, p[..|p| - 1], k);
      assert p[..|p| - 1][..k] == p[..k];
    } else {
      assert p[..k] == p;
    }
  }

  lemma NoWordBeyond(keys: set<string>, words: set<string>, input: string, k: nat)
    requires Closed(keys) && words <= keys && k <= |input| && input[..k] !in keys
    ensures forall w :: w in words && w <= input ==> |w| < k
  {
    forall w | w in words && w <= input ensures |w| < k {
      if |w| >= k {
        assert w[..k] == input[..k];
        PrefixClosed(keys, w, k);
      }
    }
  }

  /** A word that is a prefix of the input and none of its shorter prefixes is longer. */
  lemma OneOf(words: set<string>, input: string, k: nat)
    requires k <= |input| && forall j :: 0 <= j <= k ==> input[..j] !in words
    ensures forall w :: w in words && w <= input ==> |w| > k && w == input[..|w|]
  {
    forall w | w in words && w <= input ensures |w| > k && w == input[..|w|] {
      assert w == input[..|w|];
    }
  }
}
