/** User-id extraction from the search page: `user_link_pattern.findall(text)` for the pattern
    `<a href="/users/(?P<user_id>\d+)"`, then `list(set(...))` to drop repeats. */
module UserLinks {
  import opened Wrappers
  import opened Digits

  /** The literal text of the pattern before the captured digits. */
  const Anchor: string := "<a href=\"/users/"

  /** The pattern tried at the start of `t`: the captured id and the text after the match. */
  datatype Capture = Capture(userId: string, rest: string)

  function MatchAt(t: string): (r: Option<Capture>)
    ensures r.Some? ==> IsDigitRun(r.value.userId) &&
                        t == Anchor + r.value.userId + "\"" + r.value.rest
  {
    if Anchor <= t then
      var body := t[|Anchor|..];
      var n := RunLength(body);
      if 0 < n < |body| && body[n] == '"' then
        assert t == Anchor + body[..n] + "\"" + body[n + 1..] by {
          assert t == Anchor + body;
          assert body == body[..n] + "\"" + body[n + 1..];
        }
        Some(Capture(body[..n], body[n + 1..]))
      else None
    else None
  }

  /** A real anchor is matched: the pattern captures its whole digit run. */
  lemma MatchAtOf(id: string, rest: string)
    requires IsDigitRun(id)
    ensures MatchAt(Anchor + id + "\"" + rest) == Some(Capture(id, rest))
  {
    var t := Anchor + id + "\"" + rest;
    assert Anchor <= t;
    var body := t[|Anchor|..];
    assert body == id + ("\"" + rest);
    RunLengthOf(id, "\"" + rest);
    assert body[..|id|] == id;
    assert body[|id| + 1..] == rest;
  }

  /** An anchor `<a href="/users/ID"` with a digit-run `ID` starts at position `i` of `t`. */
  ghost predicate AnchorAt(t: string, i: nat, id: string)
    requires i <= |t|
  {
    IsDigitRun(id) && Anchor + id + "\"" <= t[i..]
  }

  /** The pattern captures `id` at position `i` exactly when an anchor for `id` starts there. */
  lemma MatchAtIffAnchor(t: string, i: nat, id: string)
    requires i <= |t|
    ensures (MatchAt(t[i..]).Some? && MatchAt(t[i..]).value.userId == id) <==> AnchorAt(t, i, id)
  {
    if AnchorAt(t, i, id) {
      var head := Anchor + id + "\"";
      var rest := t[i..][|head|..];
      assert t[i..] == head + rest;
      MatchAtOf(id, rest);
    }
  }

  /** `findall`: scan left to right; after a match resume at its end, otherwise one character on. */
  function FindAll(t: string): (r: seq<string>)
    ensures forall x :: x in r ==> IsDigitRun(x)
    decreases |t|
  {
    if t == [] then []
    else
      match MatchAt(t)
      case Some(m) => [m.userId] + FindAll(m.rest)
      case None => FindAll(t[1..])
  }

  /** Every id the pattern captures at some position of `t`, matches overlapping or not. */
  ghost function CapturesFrom(t: string, lo: nat): set<string> {
    set i | lo <= i < |t| && MatchAt(t[i..]).Some? :: MatchAt(t[i..]).value.userId
  }

  ghost function Captures(t: string): set<string> { CapturesFrom(t, 0) }

  /** The captures from position `k` on are those of the text from `k`. */
  lemma CapturesShift(t: string, k: nat)
    requires k <= |t|
    ensures CapturesFrom(t, k) == Captures(t[k..])
  {
    forall x | x in CapturesFrom(t, k) ensures x in Captures(t[k..]) {
      var i :| k <= i < |t| && MatchAt(t[i..]).Some? && MatchAt(t[i..]).value.userId == x;
      assert t[k..][i - k..] == t[i..];
    }
    forall x | x in Captures(t[k..]) ensures x in CapturesFrom(t, k) {
      var j :| 0 <= j < |t[k..]| && MatchAt(t[k..][j..]).Some? && MatchAt(t[k..][j..]).value.userId == x;
      assert t[k..][j..] == t[k + j..];
    }
  }

  /** A match starts with `<`, which does not occur anywhere else in a match, so no match can
      start inside another one. */
  lemma NoMatchInside(t: string, m: Capture, i: nat)
    requires MatchAt(t) == Some(m)
    requires 0 < i < |t| - |m.rest|
    ensures MatchAt(t[i..]).None?
  {
    var head := Anchor + m.userId + "\"";
    assert t == head + m.rest;
    assert t[i] == head[i];
    if i < |Anchor| {
      assert head[i] == Anchor[i];
    } else if i < |Anchor| + |m.userId| {
      assert head[i] == m.userId[i - |Anchor|];
    }
    assert t[i..][0] != '<';
  }

  /** Skipping past a match misses nothing: the captures from position 1 equal those after it. */
  lemma CapturesAfterMatch(t: string, m: Capture)
    requires MatchAt(t) == Some(m)
    ensures CapturesFrom(t, 1) == CapturesFrom(t, |t| - |m.rest|)
  {
    var k := |t| - |m.rest|;
    forall x | x in CapturesFrom(t, 1) ensures x in CapturesFrom(t, k) {
      var i :| 1 <= i < |t| && MatchAt(t[i..]).Some? && MatchAt(t[i..]).value.userId == x;
      if i < k {
        NoMatchInside(t, m, i);
      }
    }
  }

  /** The scan collects exactly the set of ids captured anywhere in the text. */
  lemma {:induction false} FindAllCaptures(t: string)
    ensures (set x | x in FindAll(t)) == Captures(t)
    decreases |t|
  {
    if t == [] {
    } else {
      assert t[0..] == t;
      assert Captures(t) == (if MatchAt(t).Some? then {MatchAt(t).value.userId} else {}) + CapturesFrom(t, 1) by {
        forall x | x in Captures(t)
          ensures x in (if MatchAt(t).Some? then {MatchAt(t).value.userId} else {}) + CapturesFrom(t, 1)
        {
          var i :| 0 <= i < |t| && MatchAt(t[i..]).Some? && MatchAt(t[i..]).value.userId == x;
        }
      }
      match MatchAt(t)
      case Some(m) =>
        CapturesAfterMatch(t, m);
        CapturesShift(t, |t| - |m.rest|);
        assert t[|t| - |m.rest|..] == m.rest;
        FindAllCaptures(m.rest);
      case None =>
        CapturesShift(t, 1);
        FindAllCaptures(t[1..]);
    }
  }

  predicate NoDuplicates<T(==)>(s: seq<T>) {
    forall i, j :: 0 <= i < j < |s| ==> s[i] != s[j]
  }

  /** `list(set(xs))`: every element once. Python leaves the order to the set; this model keeps
      first occurrences, and the contract promises no order. */
  function RemoveRepeat(xs: seq<string>): (r: seq<string>)
    ensures NoDuplicates(r)
    ensures forall x :: x in r <==> x in xs
  {
    if xs == [] then []
    else
      var init := xs[..|xs| - 1];
      var last := xs[|xs| - 1];
      var r := RemoveRepeat(init);
      assert xs == init + [last];
      if last in r then r else r + [last]
  }

  /** The ids `search_user` returns for a page text: each once, all digit runs. */
  function SearchUser(text: string): (r: seq<string>)
    ensures NoDuplicates(r)
    ensures forall x :: x in r ==> IsDigitRun(x)
  {
    RemoveRepeat(FindAll(text))
  }

  /** The ids returned are exactly those of the anchors `<a href="/users/ID"` in the page. */
  lemma SearchUserSpec(text: string)
    ensures (set x | x in SearchUser(text)) == Captures(text)
    ensures forall id :: id in SearchUser(text) <==> exists i :: 0 <= i < |text| && AnchorAt(text, i, id)
  {
    FindAllCaptures(text);
    forall id ensures id in SearchUser(text) <==> exists i :: 0 <= i < |text| && AnchorAt(text, i, id) {
      if id in SearchUser(text) {
        assert id in Captures(text);
        var i :| 0 <= i < |text| && MatchAt(text[i..]).Some? && MatchAt(text[i..]).value.userId == id;
        MatchAtIffAnchor(text, i, id);
      }
      if exists i :: 0 <= i < |text| && AnchorAt(text, i, id) {
        var i :| 0 <= i < |text| && AnchorAt(text, i, id);
        MatchAtIffAnchor(text, i, id);
        assert id in Captures(text);
      }
    }
  }

  /** A page without a matching anchor gives the empty list, and only such a page does. */
  lemma SearchUserEmpty(text: string)
    ensures SearchUser(text) == [] <==> forall i, id :: 0 <= i < |text| ==> !AnchorAt(text, i, id)
  {
    SearchUserSpec(text);
    forall i, id | 0 <= i < |text| && AnchorAt(text, i, id) ensures id in SearchUser(text) {
    }
    if SearchUser(text) != [] {
      var x := SearchUser(text)[0];
      assert x in SearchUser(text);
      var i :| 0 <= i < |text| && AnchorAt(text, i, x);
    }
  }

  /** The worked case: a page holding the anchor of user 42 anywhere gives user 42. */
  lemma SearchUserCollectsAnchor(text: string, i: nat)
    requires i <= |text| && "<a href=\"/users/42\"" <= text[i..]
    ensures "42" in SearchUser(text)
  {
    assert IsDigitRun("42");
    assert "<a href=\"/users/42\"" == Anchor + "42" + "\"";
    assert AnchorAt(text, i, "42");
    SearchUserSpec(text);
  }
}
