/** Denominations: a base and the path of ports and channels that it came over, as one string. */
module DenomPath {
  import opened Wrappers

  datatype Denom = Denom(path: string, base: string)

  const SLASH: string := "/"

  predicate Slashless(s: string) {
    forall i :: 0 <= i < |s| ==> s[i] != '/'
  }

  /** The first slash, or the length. */
  function Slash(s: string): (i: nat)
    ensures i <= |s| && Slashless(s[..i])
    ensures i < |s| ==> s[i] == '/'
  {
    if s == "" || s[0] == '/' then 0
    else
      assert forall i :: 0 <= i < 1 + Slash(s[1..]) ==> s[i] == if i == 0 then s[0] else s[1..][i - 1];
      1 + Slash(s[1..])
  }

  /** `split`, into at most `limit` parts if that is not 0. */
  function Split(s: string, limit: nat): (parts: seq<string>)
    ensures parts != []
    decreases |s|
  {
    var i := Slash(s);
    if i == |s| || limit == 1 then [s]
    else [s[..i]] + Split(s[i + 1..], if limit == 0 then 0 else limit - 1)
  }

  function Join(parts: seq<string>): string {
    if parts == [] then "" else if |parts| == 1 then parts[0] else parts[0] + SLASH + Join(parts[1..])
  }

  function AddPath(path: string, port: string, chan: string): string {
    var newPath := port + SLASH + chan;
    if path == "" then newPath else newPath + SLASH + path
  }

  function RemovePrefix(path: string): Option<string> {
    var components := Split(path, 3);
    if |components| == 2 then Some("")
    else if |components| == 3 then Some(components[2])
    else None
  }

  predicate HasPrefixes(path: string, prefixes: seq<string>) {
    prefixes <= Split(path, 0)
  }

  function FromString(s: string): Denom {
    var parts := Split(s, 0);
    Denom(Join(parts[..|parts| - 1]), parts[|parts| - 1])
  }

  function ToString(d: Denom): string {
    if d.path != "" then d.path + SLASH + d.base else d.base
  }

  // ---------------------------------------------------------------- splitting

  lemma {:induction false} SlashAfter(a: string, b: string)
    requires Slashless(a)
    ensures Slash(a + SLASH + b) == |a|
  {
    var s := a + SLASH + b;
    assert s[|a|] == '/' && forall i :: 0 <= i < |a| ==> s[i] == a[i];
    if a != "" {
      assert s[1..] == a[1..] + SLASH + b;
      SlashAfter(a[1..], b);
    }
  }

  lemma SlashNowhere(a: string)
    requires Slashless(a)
    ensures Slash(a) == |a|
  {
  }

  lemma SplitFirst(a: string, b: string, limit: nat)
    requires Slashless(a) && limit != 1
    ensures Split(a + SLASH + b, limit) == [a] + Split(b, if limit == 0 then 0 else limit - 1)
  {
    SlashAfter(a, b);
    var s := a + SLASH + b;
    assert s[..|a|] == a && s[|a| + 1..] == b;
  }

  lemma SplitNone(a: string, limit: nat)
    requires Slashless(a)
    ensures Split(a, limit) == [a]
  {
    SlashNowhere(a);
  }

  /** A string with a slash is cut at the first one. */
  lemma Cut(s: string, limit: nat) returns (head: string, tail: string)
    requires Slash(s) < |s| && limit != 1
    ensures s == head + SLASH + tail && Slashless(head) && |tail| < |s|
    ensures Split(s, limit) == [head] + Split(tail, if limit == 0 then 0 else limit - 1)
  {
    head, tail := s[..Slash(s)], s[Slash(s) + 1..];
  }

  lemma JoinCons(head: string, parts: seq<string>)
    requires parts != []
    ensures Join([head] + parts) == head + SLASH + Join(parts)
  {
    assert ([head] + parts)[1..] == parts;
  }

  lemma {:induction false} JoinSplit(s: string)
    ensures Join(Split(s, 0)) == s
    decreases |s|
  {
    if Slash(s) < |s| {
      var head, tail := Cut(s, 0);
      hide Split, Join;
      JoinSplit(tail);
      JoinCons(head, Split(tail, 0));
    }
  }

  lemma {:induction false} SplitParts(s: string)
    ensures forall i :: 0 <= i < |Split(s, 0)| ==> Slashless(Split(s, 0)[i])
    decreases |s|
  {
    var i := Slash(s);
    if i < |s| {
      SplitParts(s[i + 1..]);
    }
  }

  lemma {:induction false} SplitLast(s: string, b: string)
    requires Slashless(b)
    ensures Split(s + SLASH + b, 0) == Split(s, 0) + [b]
    decreases |s|
  {
    var i := Slash(s);
    var t := s + SLASH + b;
    if i == |s| {
      SplitFirst(s, b, 0);
      SplitNone(b, 0);
    } else {
      SplitLast(s[i + 1..], b);
      assert t == s[..i] + SLASH + (s[i + 1..] + SLASH + b);
      SplitFirst(s[..i], s[i + 1..] + SLASH + b, 0);
    }
  }

  // ---------------------------------------------------------------- the laws

  /** What is added is there, and is what is taken off again. */
  lemma PrefixRoundTrip(path: string, port: string, chan: string)
    requires Slashless(port) && Slashless(chan)
    ensures HasPrefixes(AddPath(path, port, chan), [port, chan])
    ensures RemovePrefix(AddPath(path, port, chan)) == Some(path)
  {
    if path == "" {
      SplitFirst(port, chan, 0);
      SplitFirst(port, chan, 3);
      SplitNone(chan, 0);
      SplitNone(chan, 2);
    } else {
      var rest := chan + SLASH + path;
      assert AddPath(path, port, chan) == port + SLASH + rest;
      SplitFirst(port, rest, 0);
      SplitFirst(port, rest, 3);
      SplitFirst(chan, path, 0);
      SplitFirst(chan, path, 2);
    }
  }

  lemma PrefixPath(path: string, port: string, chan: string) returns (tail: string)
    requires HasPrefixes(path, [port, chan])
    ensures path == port + SLASH + chan || path == port + SLASH + (chan + SLASH + tail)
  {
    var head, rest := Cut(path, 0);
    assert Split(path, 0)[0] == port && Split(path, 0)[1] == chan;
    tail := "";
    if Slash(rest) < |rest| {
      var second;
      second, tail := Cut(rest, 0);
    }
  }

  lemma PathPrefix(tail: string, port: string, chan: string)
    requires Slashless(port) && Slashless(chan)
    ensures HasPrefixes(port + SLASH + (chan + SLASH + tail), [port, chan])
  {
    SplitFirst(port, chan + SLASH + tail, 0);
    SplitFirst(chan, tail, 0);
  }

  /** The prefix is there exactly if the path is the port and the channel, alone or with more behind a slash. */
  lemma PrefixIff(path: string, port: string, chan: string)
    requires Slashless(port) && Slashless(chan)
    ensures HasPrefixes(path, [port, chan]) <==> path == port + "/" + chan || port + "/" + chan + "/" <= path
  {
    PrefixRoundTrip("", port, chan);
    hide HasPrefixes, AddPath, RemovePrefix;
    var p := port + "/" + chan + "/";
    if HasPrefixes(path, [port, chan]) {
      var tail := PrefixPath(path, port, chan);
      assert port + SLASH + (chan + SLASH + tail) == p + tail;
    }
    if p <= path {
      var tail := path[|p|..];
      assert path == p + tail == port + SLASH + (chan + SLASH + tail);
      PathPrefix(tail, port, chan);
    }
    if path == port + "/" + chan {
      AddedAlone(port, chan);
    }
  }

  lemma AddedAlone(port: string, chan: string)
    ensures AddPath("", port, chan) == port + "/" + chan
  {
  }

  /** A voucher is written as the port, the channel and the denomination that it stands for. */
  lemma VoucherString(d: Denom, port: string, chan: string)
    ensures ToString(Denom(AddPath(d.path, port, chan), d.base)) == port + "/" + chan + "/" + ToString(d)
  {
    if d.path != "" {
      assert AddPath(d.path, port, chan) + "/" + d.base == port + "/" + chan + "/" + (d.path + "/" + d.base);
    }
  }

  /** What is taken off can be put back, unless the path ends in the slash behind the prefix. */
  lemma PrefixPutBack(path: string, port: string, chan: string)
    requires HasPrefixes(path, [port, chan])
    ensures RemovePrefix(path).Some?
    ensures AddPath(RemovePrefix(path).value, port, chan) == path <==> path != port + SLASH + chan + SLASH
  {
    var head, rest := Cut(path, 0);
    var head3, rest3 := Cut(path, 3);
    CutIsUnique(head, rest, head3, rest3);
    assert Split(path, 0)[0] == port && Split(path, 0)[1] == chan;
    if Slash(rest) == |rest| {
      assert rest == chan;
      assert Split(path, 3) == [port, chan];
    } else {
      var second, tail := Cut(rest, 0);
      var second2, tail2 := Cut(rest, 2);
      CutIsUnique(second, tail, second2, tail2);
      assert Split(path, 3) == [port, chan, tail];
    }
    hide Split, Slash;
    PutBack(path, port, chan, RemovePrefix(path).value);
  }

  lemma CutIsUnique(a: string, b: string, c: string, d: string)
    requires a + SLASH + b == c + SLASH + d && Slashless(a) && Slashless(c)
    ensures a == c && b == d
  {
    SlashAfter(a, b);
    SlashAfter(c, d);
    var s := a + SLASH + b;
    assert s[..|a|] == a && s[..|c|] == c && s[|a| + 1..] == b && s[|c| + 1..] == d;
  }

  lemma PutBack(path: string, port: string, chan: string, tail: string)
    requires (path == port + SLASH + chan && tail == "") || path == port + SLASH + (chan + SLASH + tail)
    ensures AddPath(tail, port, chan) == path <==> path != port + SLASH + chan + SLASH
  {
    var p := port + SLASH + chan;
    if path == port + SLASH + (chan + SLASH + tail) {
      assert path == p + SLASH + tail;
      if tail == "" {
        assert path == p + SLASH && |path| == |p| + 1;
      } else {
        assert |path| > |p + SLASH|;
      }
    } else {
      assert |path| < |p + SLASH|;
    }
  }

  /** A denomination survives the packet it is sent in if and only if its base has no slash. */
  lemma DenomRoundTrip(d: Denom)
    ensures FromString(ToString(d)) == d <==> Slashless(d.base)
  {
    var s := ToString(d);
    var parts := Split(s, 0);
    SplitParts(s);
    if Slashless(d.base) {
      if d.path == "" {
        SplitNone(d.base, 0);
      } else {
        SplitLast(d.path, d.base);
        JoinSplit(d.path);
        assert parts[..|parts| - 1] == Split(d.path, 0);
      }
    }
  }

  /** What is read has a base without slashes. */
  lemma FromStringBase(s: string)
    ensures Slashless(FromString(s).base)
  {
    SplitParts(s);
  }
}
