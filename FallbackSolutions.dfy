/** Canned solutions for four common problems (backend/agent/fallback_solutions.py):
    an exact lookup by problem slug and a fixed Markdown document built from the entry.
    The explanation, the Python code and the worked example of each entry are long
    literal texts that are never executed; they are supplied as data by `texts`. */
module FallbackSolutions {
  import opened Wrappers
  import opened Strings

  /** The three long texts of one entry. */
  datatype Texts = Texts(explanation: string, code: string, example: string)

  datatype Entry = Entry(title: string, approach: string, explanation: string, code: string, example: string)

  /** What `get_fallback_solution` returns: exactly the keys title, content and approach. */
  datatype Solution = Solution(title: string, content: string, approach: string)

  const TwoSum := "two-sum"
  const ReverseLinkedList := "reverse-linked-list"
  const ValidParentheses := "valid-parentheses"
  const BestTimeToBuyAndSellStock := "best-time-to-buy-and-sell-stock"

  function MakeEntry(title: string, approach: string, t: Texts): Entry {
    Entry(title, approach, t.explanation, t.code, t.example)
  }

  /** `COMMON_SOLUTIONS`, with the long texts of the entry for slug `k` given by `texts(k)`. */
  function CommonSolutions(texts: string -> Texts): map<string, Entry> {
    map[
      TwoSum := MakeEntry("Two Sum", "Hash Map", texts(TwoSum)),
      ReverseLinkedList := MakeEntry("Reverse Linked List", "Iterative with Three Pointers", texts(ReverseLinkedList)),
      ValidParentheses := MakeEntry("Valid Parentheses", "Stack", texts(ValidParentheses)),
      BestTimeToBuyAndSellStock := MakeEntry("Best Time to Buy and Sell Stock", "Single Pass with Min Tracking",
                                             texts(BestTimeToBuyAndSellStock))
    ]
  }

  const CodeOpen := "```python\n"
  const CodeClose := "\n```"
  const NoteLine := "**Note:** This is a common solution pattern. The actual LeetCode editorial may have additional approaches or optimizations."

  function Heading(title: string): string {
    "# " + title + " - Solution"
  }

  const ImplementationHeading := "\n\n## Python Implementation:\n\n"
  const ExampleHeading := "\n\n## Example Walkthrough:\n\n"
  const Rule := "\n\n---\n\n"

  /** The fixed text between the explanation and the code. */
  const BeforeCode := ImplementationHeading + CodeOpen
  /** The fixed text between the code and the example. */
  const AfterCode := CodeClose + ExampleHeading
  /** The fixed closing text. */
  const Closing := Rule + (NoteLine + "\n")

  /** The Markdown document of the f-string template. */
  function SolutionContent(e: Entry): string {
    (Heading(e.title) + "\n\n") + e.explanation + BeforeCode + e.code + AfterCode + e.example + Closing
  }

  /** `get_fallback_solution`: an exact, case-sensitive lookup. */
  function GetFallbackSolution(slug: string, texts: string -> Texts): (r: Option<Solution>)
    ensures r.None? <==> slug !in {TwoSum, ReverseLinkedList, ValidParentheses, BestTimeToBuyAndSellStock}
    ensures r.Some? ==> var e := CommonSolutions(texts)[slug];
      r.value.title == e.title && r.value.approach == e.approach && r.value.content == SolutionContent(e)
  {
    var table := CommonSolutions(texts);
    if slug in table then
      var e := table[slug];
      Some(Solution(e.title, SolutionContent(e), e.approach))
    else None
  }

  /** The solution document opens with its heading, shows the explanation, then the code
      fenced as Python, then the example, in that order, and closes with the fixed note line. */
  lemma ContentLayout(e: Entry) returns (explanationAt: nat, codeAt: nat, exampleAt: nat)
    ensures var c := SolutionContent(e);
      && StartsWith(c, Heading(e.title))
      && explanationAt + |e.explanation| <= codeAt - |CodeOpen|
      && codeAt + |e.code| + |CodeClose| <= exampleAt
      && exampleAt + |e.example| + |NoteLine| + 1 <= |c|
      && c[explanationAt..explanationAt + |e.explanation|] == e.explanation
      && c[codeAt - |CodeOpen|..codeAt] == CodeOpen
      && c[codeAt..codeAt + |e.code|] == e.code
      && c[codeAt + |e.code|..codeAt + |e.code| + |CodeClose|] == CodeClose
      && c[exampleAt..exampleAt + |e.example|] == e.example
      && c[|c| - |NoteLine| - 1..] == NoteLine + "\n"
  {
    explanationAt, codeAt, exampleAt :=
      Placed(Heading(e.title), "\n\n", e.explanation, BeforeCode, ImplementationHeading, CodeOpen, e.code,
             AfterCode, CodeClose, ExampleHeading, e.example, Closing, Rule, NoteLine + "\n");
  }

  /** Where the parts sit in a document `h + g + x + ao + y + kb + z + rn`, whatever the
      fixed texts `ao = a + o`, `kb = k + b` and `rn = r + n` are. */
  lemma Placed(h: string, g: string, x: string, ao: string, a: string, o: string, y: string,
               kb: string, k: string, b: string, z: string, rn: string, r: string, n: string)
    returns (xAt: nat, yAt: nat, zAt: nat)
    requires ao == a + o && kb == k + b && rn == r + n
    ensures var c := (h + g) + x + ao + y + kb + z + rn;
      && StartsWith(c, h)
      && xAt + |x| <= yAt - |o|
      && yAt + |y| + |k| <= zAt
      && zAt + |z| + |n| <= |c|
      && c[xAt..xAt + |x|] == x
      && c[yAt - |o|..yAt] == o
      && c[yAt..yAt + |y|] == y
      && c[yAt + |y|..yAt + |y| + |k|] == k
      && c[zAt..zAt + |z|] == z
      && c[|c| - |n|..] == n
  {
    var head := h + g;
    xAt, yAt, zAt := Layout(head, x, ao, y, kb, z, rn);
    var c := head + x + ao + y + kb + z + rn;
    assert StartsWith(c, h) by {
      Ends(h, g);
      Within(c, 0, |head|, |h|);
    }
    assert c[yAt - |o|..yAt] == o by {
      Ends(a, o);
      Within(c, yAt - |ao|, yAt, |a|);
    }
    assert c[yAt + |y|..yAt + |y| + |k|] == k by {
      Ends(k, b);
      Within(c, yAt + |y|, zAt, 0);
    }
    assert c[|c| - |n|..] == n by {
      Ends(r, n);
      Within(c, |c| - |rn|, |c|, |r|);
    }
  }

  /** A slice of a slice is a slice. */
  lemma Within(c: string, lo: nat, hi: nat, k: nat)
    requires lo <= hi <= |c| && k <= hi - lo
    ensures c[lo..hi][..k] == c[lo..lo + k] && c[lo..hi][k..] == c[lo + k..hi]
  {
  }

  /** Where the three variable texts sit in `p0 + x + p1 + y + p2 + z + p3`. */
  lemma Layout(p0: string, x: string, p1: string, y: string, p2: string, z: string, p3: string)
    returns (xAt: nat, yAt: nat, zAt: nat)
    ensures var c := p0 + x + p1 + y + p2 + z + p3;
      && xAt == |p0| && yAt == |p0| + |x| + |p1| && zAt == yAt + |y| + |p2| && zAt + |z| + |p3| == |c|
      && c[..xAt] == p0 && c[xAt..xAt + |x|] == x && c[xAt + |x|..yAt] == p1 && c[yAt..yAt + |y|] == y
      && c[yAt + |y|..zAt] == p2 && c[zAt..zAt + |z|] == z && c[zAt + |z|..] == p3
  {
    xAt, yAt, zAt := |p0|, |p0| + |x| + |p1|, |p0| + |x| + |p1| + |y| + |p2|;
  }

  /** The four known slugs resolve to their titles, whatever the long texts are. */
  lemma KnownTitles(texts: string -> Texts)
    ensures GetFallbackSolution(TwoSum, texts).value.title == "Two Sum"
    ensures GetFallbackSolution(ReverseLinkedList, texts).value.title == "Reverse Linked List"
    ensures GetFallbackSolution(ValidParentheses, texts).value.title == "Valid Parentheses"
    ensures GetFallbackSolution(BestTimeToBuyAndSellStock, texts).value.title == "Best Time to Buy and Sell Stock"
    ensures GetFallbackSolution("Two-Sum", texts).None?
  {
  }
}
