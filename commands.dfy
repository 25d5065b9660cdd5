/**
 * The text side of the chat webhook: who the sender is, and which command a
 * plain chat message asks for. The three command patterns of the handler,
 * `^add\s+(.+)$`, `^list$` and `^done\s+(\d+)$`, are tried in that order on
 * the trimmed text; anything else gets the help reply.
 */
module Commands {
  import opened Wrappers
  import opened Strings
  import opened Strconv

  datatype Sender = Sender(name: string, email: string)

  /** The owner every task query is scoped by: the e-mail, else the display name, else "default". */
  function OwnerOf(sender: Sender): (owner: string)
    ensures owner != ""
    ensures sender.email != "" ==> owner == sender.email
    ensures sender.email == "" && sender.name != "" ==> owner == sender.name
    ensures sender.email == "" && sender.name == "" ==> owner == "default"
  {
    if sender.email != "" then sender.email
    else if sender.name != "" then sender.name
    else "default"
  }

  /** What a plain chat message asks for. There is no text command to edit or delete. */
  datatype Intent = Add(content: string) | List | Done(id: int) | Help

  /**
   * `^add\s+(.+)$` matches `t` with the group starting at `j`: "add", then a
   * non-empty run of `\s`, then at least one character other than a newline
   * (`.` excludes it) up to the end of the text.
   */
  predicate AddSplit(t: string, j: int) {
    4 <= j < |t| && t[..3] == "add" && All(t[3..j], IsRegexSpace) && '\n' !in t[j..]
  }

  /** `^done\s+(\d+)$` matches `t` with the group starting at `j`. */
  predicate DoneSplit(t: string, j: int) {
    5 <= j < |t| && t[..4] == "done" && All(t[4..j], IsRegexSpace) && All(t[j..], IsDigit)
  }

  /**
   * The submatch of `^add\s+(.+)$`, chosen as Go's leftmost-first matcher does:
   * the greedy `\s+` takes the longest run that still leaves a group.
   */
  function MatchAdd(t: string): Option<string> {
    if |t| < 4 || t[..3] != "add" || !IsRegexSpace(t[3]) then None
    else
      var k := 3 + CountWhile(t[3..], IsRegexSpace);
      if k < |t| then
        if '\n' !in t[k..] then Some(t[k..]) else None
      else if |t| >= 5 && t[|t| - 1] != '\n' then Some(t[|t| - 1..])
      else None
  }

  /** The submatch of `^done\s+(\d+)$`. */
  function MatchDone(t: string): Option<string> {
    if |t| < 5 || t[..4] != "done" || !IsRegexSpace(t[4]) then None
    else
      var k := 4 + CountWhile(t[4..], IsRegexSpace);
      if k < |t| && All(t[k..], IsDigit) then Some(t[k..]) else None
  }

  /**
   * The switch of HandleChat: trim, then first match wins. The group of
   * `add` is trimmed again; the digits of `done` go through Atoi with its
   * error ignored, so a number beyond 64 bits becomes MaxInt.
   */
  function Classify(text: string): Intent {
    ClassifyTrimmed(TrimSpace(text))
  }

  /** The first-match switch over already trimmed text. */
  function ClassifyTrimmed(t: string): Intent {
    match MatchAdd(t)
    case Some(g) => Add(TrimSpace(g))
    case None =>
      if t == "list" then List
      else
        match MatchDone(t)
        case Some(d) => Done(Atoi(d).value)
        case None => Help
  }

  /** MatchAdd agrees with the pattern: it matches exactly when some split does, and returns the greedy one. */
  lemma MatchAddIsPattern(t: string)
    ensures MatchAdd(t).Some? <==> exists j :: AddSplit(t, j)
    ensures MatchAdd(t).Some? ==>
      exists j :: AddSplit(t, j) && MatchAdd(t).value == t[j..] && forall j' :: AddSplit(t, j') ==> j' <= j
  {
    assert forall j :: 4 <= j <= |t| ==> t[3..j][0] == t[3];
    if |t| >= 4 && t[..3] == "add" && IsRegexSpace(t[3]) {
      var n := CountWhile(t[3..], IsRegexSpace);
      var k := 3 + n;
      assert t[3..k] == t[3..][..n];
      assert forall j :: k < j <= |t| ==> t[3..j][n] == t[3..][n];
      if k < |t| {
        if '\n' in t[k..] {
          var i :| 0 <= i < |t[k..]| && t[k..][i] == '\n';
          assert forall j :: 4 <= j <= k ==> t[j..][i + k - j] == '\n';
        } else {
          assert AddSplit(t, k);
        }
      } else {
        var last := |t| - 1;
        assert forall j :: 0 <= j <= last ==> t[j..][last - j] == t[last];
        if |t| >= 5 && t[last] != '\n' {
          assert k == |t|;
          assert forall i :: 0 <= i < last - 3 ==> t[3..last][i] == t[3..k][i];
          assert t[last..] == [t[last]];
          assert AddSplit(t, last);
        }
      }
    }
  }

  /** MatchDone agrees with the pattern, whose split is unique because digits are not white space. */
  lemma MatchDoneIsPattern(t: string)
    ensures MatchDone(t).Some? <==> exists j :: DoneSplit(t, j)
    ensures forall j :: DoneSplit(t, j) ==> MatchDone(t) == Some(t[j..])
  {
    assert forall j :: 5 <= j <= |t| ==> t[4..j][0] == t[4];
    if |t| >= 5 && t[..4] == "done" && IsRegexSpace(t[4]) {
      var n := CountWhile(t[4..], IsRegexSpace);
      var k := 4 + n;
      assert t[4..k] == t[4..][..n];
      assert forall j :: k < j <= |t| ==> t[4..j][n] == t[4..][n];
      assert forall j :: 4 <= j < k ==> t[j..][0] == t[4..k][j - 4];
      if k < |t| && All(t[k..], IsDigit) {
        assert DoneSplit(t, k);
      }
    }
  }

  /** On trimmed text the `add` group is a non-empty suffix without newlines that ends where the text does. */
  lemma MatchAddGroup(t: string)
    requires IsTrimmed(t) && MatchAdd(t).Some?
    ensures var g := MatchAdd(t).value;
      && g != [] && |g| <= |t| && g == t[|t| - |g|..]
      && !IsSpace(g[|g| - 1]) && '\n' !in g
  {
    var n := CountWhile(t[3..], IsRegexSpace);
    if 3 + n == |t| {
      assert t[3..][n - 1] == t[|t| - 1];
    }
  }

  /** A classified `add` carries content that is non-empty, trimmed and on one line. */
  lemma AddContentIsTrimmed(text: string)
    requires Classify(text).Add?
    ensures var c := Classify(text).content;
      c != "" && IsTrimmed(c) && '\n' !in c
  {
    var t := TrimSpace(text);
    var g := MatchAdd(t).value;
    assert Classify(text).content == TrimSpace(g);
    MatchAddGroup(t);
    assert !All(g, IsSpace) by {
      assert !IsSpace(g[|g| - 1]);
    }
    TrimSpaceChars(g);
  }

  /**
   * `add <x>` adds the trimmed `x`, whenever `x` has something besides white
   * space and no newline before its trailing white space (which the handler
   * trims off the whole text).
   */
  lemma AddCommand(x: string)
    requires !All(x, IsSpace) && '\n' !in TrimRight(x)
    ensures Classify("add " + x) == Add(TrimSpace(x))
  {
    var p, q := TrimSpaceSplit(x);
    var m := TrimSpace(x);
    assert (p + m)[|p + m| - 1] == m[|m| - 1];
    TrimRightSkips(p + m, q);
    AddTextTrims(p, TrimSpace(x), q);
    AddGroupTrims(p, TrimSpace(x));
  }

  /** A trailing newline after the content is trimmed away with the rest of the text's end. */
  lemma AddTrailingNewline(y: string)
    requires y != [] && IsTrimmed(y) && '\n' !in y
    ensures Classify("add " + (y + "\n")) == Add(y)
  {
    var x := y + "\n";
    assert All("\n", IsSpace);
    assert x[0] == y[0];
    TrimRightSkips(y, "\n");
    assert [] + y + "\n" == x;
    TrimSpaceOf([], y, "\n");
    AddCommand(x);
  }

  /** Trimming "add " + p + m + q drops exactly the white-space suffix `q`. */
  lemma AddTextTrims(p: string, m: string, q: string)
    requires All(q, IsSpace) && m != [] && IsTrimmed(m)
    ensures TrimSpace("add " + (p + m + q)) == "add " + p + m
  {
    var t := "add " + p + m;
    assert t[|t| - 1] == m[|m| - 1];
    assert "add " + (p + m + q) == [] + t + q;
    TrimSpaceOf([], t, q);
  }

  /** On "add " + p + m, with `p` white space and `m` trimmed, the group trims to `m`. */
  lemma AddGroupTrims(p: string, m: string)
    requires All(p, IsSpace) && IsTrimmed(m) && m != [] && '\n' !in p + m
    ensures MatchAdd("add " + p + m).Some?
    ensures TrimSpace(MatchAdd("add " + p + m).value) == m
  {
    var t := "add " + p + m;
    assert |t| >= 5 && t[..3] == "add" && IsRegexSpace(t[3]);
    // The greedy run of `\s` after "add" ends inside `p`, before the first character of `m`.
    var n := CountWhile(t[3..], IsRegexSpace);
    var k := 3 + n;
    assert t[4 + |p|] == m[0];
    assert k <= 4 + |p| by {
      assert forall j :: 4 + |p| < j <= |t| ==> t[3..j][1 + |p|] == m[0];
    }
    var g := t[k..];
    var p' := p[k - 4..];
    assert g == p' + m by {
      assert forall j :: 0 <= j < |g| ==> g[j] == (p + m)[k - 4 + j];
    }
    assert '\n' !in g by {
      assert forall j :: 0 <= j < |g| ==> g[j] == (p + m)[k - 4 + j];
    }
    assert MatchAdd(t) == Some(g);
    assert p' + m + [] == g;
    TrimSpaceOf(p', m, []);
  }

  /** The text is classified as List exactly when, trimmed, it is "list"; so "list" is never an `add`. */
  lemma ListCommand(text: string)
    ensures Classify(text) == List <==> TrimSpace(text) == "list"
  {
    if TrimSpace(text) == "list" {
      assert TrimSpace(text)[..3] == "lis";
    }
  }

  /** `done <digits>` marks the task with that number; a number beyond 64 bits becomes MaxInt. */
  lemma DoneCommand(d: string)
    requires d != [] && All(d, IsDigit)
    ensures Classify("done " + d) == Done(if DigitsValue(d) <= MaxInt then DigitsValue(d) else MaxInt)
  {
    var t := "done " + d;
    assert IsTrimmed(t) by {
      assert t[|t| - 1] == d[|d| - 1];
    }
    assert MatchAdd(t) == None by {
      assert t[..3] == "don";
    }
    assert MatchDone(t) == Some(d) by {
      assert t[..4] == "done" && t[4..5] == " " && t[5..] == d;
      assert DoneSplit(t, 5);
      MatchDoneIsPattern(t);
    }
    ClassifyDone(t, d);
    AtoiDigits(d);
  }

  /** Trimmed text on which only the `done` pattern matches is classified by its digits. */
  lemma ClassifyDone(t: string, d: string)
    requires IsTrimmed(t) && |t| > 4
    requires MatchAdd(t) == None && MatchDone(t) == Some(d)
    ensures Classify(t) == Done(Atoi(d).value)
  {
    TrimSpaceIdempotent(t);
  }

  /** `done` followed by the decimal form of a task id marks exactly that id. */
  lemma DoneItoa(id: int)
    requires 0 <= id <= MaxInt
    ensures Classify("done " + Itoa(id)) == Done(id)
  {
    DoneCommand(Digits(id));
  }

  /** A classified `done` carries a non-negative 64-bit id. */
  lemma DoneIdRange(text: string)
    requires Classify(text).Done?
    ensures 0 <= Classify(text).id <= MaxInt
  {
    var t := TrimSpace(text);
    AtoiDigits(MatchDone(t).value);
  }

  /** Help is the reply exactly when none of the three patterns matches the trimmed text. */
  lemma HelpFallback(text: string)
    ensures var t := TrimSpace(text);
      Classify(text) == Help <==>
        (forall j :: !AddSplit(t, j)) && t != "list" && (forall j :: !DoneSplit(t, j))
  {
    var t := TrimSpace(text);
    MatchAddIsPattern(t);
    MatchDoneIsPattern(t);
  }

  /** Trimming keeps a leading run of non-space characters. */
  lemma TrimKeepsPrefix(s: string, n: nat)
    requires n <= |s| && forall k :: 0 <= k < n ==> !IsSpace(s[k])
    ensures n <= |TrimSpace(s)| && TrimSpace(s)[..n] == s[..n]
  {
    var i, m := TrimSpaceParts(s);
    FlankedKeepsPrefix(s, i, m, n);
  }

  /** A slice of `s` flanked by white space contains any leading run of non-space characters of `s`. */
  lemma FlankedKeepsPrefix(s: string, i: nat, m: string, n: nat)
    requires i + |m| <= |s| && s[i..i + |m|] == m
    requires All(s[..i], IsSpace) && All(s[i + |m|..], IsSpace)
    requires n <= |s| && forall k :: 0 <= k < n ==> !IsSpace(s[k])
    ensures n <= |m| && m[..n] == s[..n]
  {
    var e := i + |m|;
    assert forall k :: 0 <= k < i ==> IsSpace(s[k]) by {
      assert forall k :: 0 <= k < i ==> s[..i][k] == s[k];
    }
    assert forall k :: e <= k < |s| ==> IsSpace(s[k]) by {
      assert forall k :: e <= k < |s| ==> s[e..][k - e] == s[k];
    }
    if n > 0 {
      assert !IsSpace(s[0]);
      assert i == 0;
      assert !IsSpace(s[n - 1]);
      assert n - 1 < e;
      assert m == s[..e];
    }
  }

  /** Trimmed text starting with `edit` matches none of the three patterns. */
  lemma EditIsHelp(t: string)
    requires 4 <= |t| && t[..4] == "edit"
    ensures (forall j :: !AddSplit(t, j)) && t != "list" && (forall j :: !DoneSplit(t, j))
  {
    assert t[..3][0] == 'e';
    assert t[0] == 'e';
  }

  /** Text that starts with `edit` is answered with the usage text. */
  lemma EditPrefixIsHelp(s: string)
    requires 4 <= |s| && s[..4] == "edit"
    ensures Classify(s) == Help
  {
    assert forall k :: 0 <= k < 4 ==> s[k] == "edit"[k];
    TrimKeepsPrefix(s, 4);
    EditIsHelp(TrimSpace(s));
    HelpFallback(s);
  }

  /** There is no text `edit` command: `edit <anything>` gets the usage text. */
  lemma NoTextEdit(x: string)
    ensures Classify("edit " + x) == Help
  {
    EditPrefixIsHelp("edit " + x);
  }
}
