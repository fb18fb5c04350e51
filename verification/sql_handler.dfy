/** Placeholder generation of the SQL handler (src/handler/dbs/SQLHandler.ts):
    `genQMS` and `genNQMS` build the `(?,?,…)` groups a prepared INSERT needs.
    The connection pool and `query` are database plumbing and are not modelled. */
module SqlHandler {
  import opened JsValues

  /** `Array(n).fill(s)`. */
  function Fill(s: string, n: nat): (r: seq<string>)
    ensures |r| == n
    ensures forall i :: 0 <= i < n ==> r[i] == s
  {
    seq(n, _ => s)
  }

  /** `genQMS(count)`: `count` question marks joined by commas, in parentheses. */
  function GenQMS(count: nat): string
  {
    "(" + Join(Fill("?", count), ",") + ")"
  }

  /** `genNQMS(count, n)`: `n` copies of the group of `count` question marks, joined by commas. */
  function GenNQMS(count: nat, n: nat): string
  {
    var qms := Join(Fill("?", count), ",");
    Join(Fill("(" + qms + ")", n), ",")
  }

  /** The characters a placeholder list is made of. */
  predicate PlaceholderText(s: string)
  {
    forall i :: 0 <= i < |s| ==> s[i] == '(' || s[i] == ')' || s[i] == '?' || s[i] == ','
  }

  // ---------------------------------------------------------------------------
  // Counting

  lemma {:induction false} JoinFillCount(p: string, n: nat, sep: string, c: char)
    requires CountChar(sep, c) == 0
    ensures CountChar(Join(Fill(p, n), sep), c) == n * CountChar(p, c)
  {
    if n >= 2 {
      var rest := Join(Fill(p, n - 1), sep);
      JoinFillUnfold(p, n, sep);
      JoinFillCount(p, n - 1, sep, c);
      CountCharAppend(p + sep, rest, c);
      CountCharAppend(p, sep, c);
      MulStep(n, CountChar(p, c));
    } else if n == 1 {
      assert Join(Fill(p, n), sep) == p;
    }
  }

  /** Proof step: the first copy peeled off a join of copies. */
  lemma JoinFillUnfold(p: string, n: nat, sep: string)
    requires n >= 2
    ensures Join(Fill(p, n), sep) == p + sep + Join(Fill(p, n - 1), sep)
  {
    assert Fill(p, n)[1..] == Fill(p, n - 1);
  }

  /** Proof step: one factor taken out of a product. */
  lemma MulStep(n: nat, k: nat)
    requires n >= 1
    ensures n * k == (n - 1) * k + k
  {
  }

  /** `genQMS(n)` holds exactly `n` placeholders. */
  lemma GenQMSCount(n: nat)
    ensures CountChar(GenQMS(n), '?') == n
  {
    JoinFillCount("?", n, ",", '?');
    WrapCount(Join(Fill("?", n), ","));
  }

  /** Parentheses add no placeholders. */
  lemma WrapCount(body: string)
    ensures CountChar("(" + body + ")", '?') == CountChar(body, '?')
  {
    CountCharAppend("(" + body, ")", '?');
    CountCharAppend("(", body, '?');
  }

  /** `genNQMS(count, n)` holds exactly `count * n` placeholders. */
  lemma GenNQMSCount(count: nat, n: nat)
    ensures CountChar(GenNQMS(count, n), '?') == count * n
  {
    GenQMSCount(count);
    JoinFillCount(GenQMS(count), n, ",", '?');
  }

  lemma GenQMSEmpty()
    ensures GenQMS(0) == "()"
  {
  }

  lemma GenNQMSNone(count: nat)
    ensures GenNQMS(count, 0) == ""
  {
  }

  /** One group from `genNQMS` is exactly `genQMS`. */
  lemma GenNQMSOne(count: nat)
    ensures GenNQMS(count, 1) == GenQMS(count)
  {
  }

  // ---------------------------------------------------------------------------
  // Shape

  /** `Array(n).fill("?").join(",")` alternates `?` and `,`, starting and ending with `?`. */
  lemma {:induction false} QuestionMarksShape(n: nat)
    requires n >= 1
    ensures |Join(Fill("?", n), ",")| == 2 * n - 1
    ensures forall k :: 0 <= k < n ==> Join(Fill("?", n), ",")[2 * k] == '?'
    ensures forall k :: 0 <= k < n - 1 ==> Join(Fill("?", n), ",")[2 * k + 1] == ','
  {
    if n >= 2 {
      assert Fill("?", n)[1..] == Fill("?", n - 1);
      QuestionMarksShape(n - 1);
      var tail := Join(Fill("?", n - 1), ",");
      var s := Join(Fill("?", n), ",");
      assert s == "?," + tail;
      forall k | 1 <= k < n ensures s[2 * k] == '?' {
        assert s[2 * k] == tail[2 * (k - 1)];
      }
      forall k | 1 <= k < n - 1 ensures s[2 * k + 1] == ',' {
        assert s[2 * k + 1] == tail[2 * (k - 1) + 1];
      }
    }
  }

  /** `genQMS(n)` is "(" then `n` question marks separated by commas, then ")". */
  lemma GenQMSShape(n: nat)
    requires n >= 1
    ensures |GenQMS(n)| == 2 * n + 1
    ensures GenQMS(n)[0] == '(' && GenQMS(n)[2 * n] == ')'
    ensures forall k :: 0 <= k < n ==> GenQMS(n)[2 * k + 1] == '?'
    ensures forall k :: 0 <= k < n - 1 ==> GenQMS(n)[2 * k + 2] == ','
  {
    QuestionMarksShape(n);
    var body := Join(Fill("?", n), ",");
    var g := GenQMS(n);
    assert g == "(" + body + ")";
    assert forall i :: 0 <= i < |body| ==> g[i + 1] == body[i];
  }

  lemma {:induction false} JoinPlaceholderText(parts: seq<string>, sep: string)
    requires PlaceholderText(sep)
    requires forall i :: 0 <= i < |parts| ==> PlaceholderText(parts[i])
    ensures PlaceholderText(Join(parts, sep))
  {
    if |parts| >= 2 {
      JoinPlaceholderText(parts[1..], sep);
      var s := parts[0] + sep + Join(parts[1..], sep);
      forall i | 0 <= i < |s|
        ensures s[i] == '(' || s[i] == ')' || s[i] == '?' || s[i] == ','
      {
        if i < |parts[0]| {
          assert s[i] == parts[0][i];
        } else if i < |parts[0]| + |sep| {
          assert s[i] == sep[i - |parts[0]|];
        } else {
          assert s[i] == Join(parts[1..], sep)[i - |parts[0]| - |sep|];
        }
      }
    }
  }

  /** Both generators emit nothing but parentheses, question marks and commas. */
  lemma PlaceholdersOnly(count: nat, n: nat)
    ensures PlaceholderText(GenQMS(count))
    ensures PlaceholderText(GenNQMS(count, n))
  {
    JoinPlaceholderText(Fill("?", count), ",");
    var g := GenQMS(count);
    assert PlaceholderText(g);
    JoinPlaceholderText(Fill(g, n), ",");
  }
}
