/** The membership record kept in ZooKeeper: printing a peer set, parsing it back, and the
    server-node paths that deletion events name. */
module PeerList {

  datatype Parsed = Failure | Success(epoch: nat, count: nat, peers: set<string>)

  const MAX_EPOCH: nat := 0x1_0000_0000_0000_0000

  // ---- characters ----

  /** string::find from the front: the first position of c, or the length. */
  function Find(s: string, c: char): (i: nat)
    ensures i <= |s| && (i < |s| ==> s[i] == c) && forall j :: 0 <= j < i ==> s[j] != c
  {
    if s == [] || s[0] == c then 0 else 1 + Find(s[1..], c)
  }

  function DigitOf(d: nat): char
    requires d < 10
  {
    "0123456789"[d]
  }

  predicate IsDigit(c: char) {
    '0' <= c <= '9'
  }

  function ValueOf(c: char): (d: nat)
    requires IsDigit(c)
    ensures d < 10
  {
    (c - '0') as nat
  }

  /** Decimal digits of n, as a stream prints them. */
  function Digits(n: nat): (s: string)
    ensures s != [] && forall i :: 0 <= i < |s| ==> IsDigit(s[i])
    ensures s[0] == '0' <==> n == 0
  {
    if n < 10 then [DigitOf(n)] else Digits(n / 10) + [DigitOf(n % 10)]
  }

  function Number(s: string): nat
    requires forall i :: 0 <= i < |s| ==> IsDigit(s[i])
  {
    if s == [] then 0 else 10 * Number(s[..|s| - 1]) + ValueOf(s[|s| - 1])
  }

  function LeadingDigits(s: string): (k: nat)
    ensures k <= |s| && forall i :: 0 <= i < k ==> IsDigit(s[i])
    ensures k < |s| ==> !IsDigit(s[k])
  {
    if s == [] || !IsDigit(s[0]) then 0 else 1 + LeadingDigits(s[1..])
  }

  datatype Long = Throws | Value(n: nat)

  /** The characters isspace accepts: blank, tab, newline, vertical tab, form feed, return. */
  predicate IsBlank(c: char) {
    c == ' ' || 9 as char <= c <= 13 as char
  }

  function SkipBlanks(s: string): string {
    if s != [] && IsBlank(s[0]) then SkipBlanks(s[1..]) else s
  }

  /** stoul: blanks, a sign, digits, and whatever follows them; an exception when there is no digit
      or the digits do not fit in 64 bits. A minus sign negates without a sign bit. */
  function Stoul(s: string): Long {
    var t := SkipBlanks(s);
    var signed := t != [] && (t[0] == '-' || t[0] == '+');
    var u := if signed then t[1..] else t;
    var k := LeadingDigits(u);
    if k == 0 || Number(u[..k]) >= MAX_EPOCH then Throws
    else Value(if signed && t[0] == '-' then (MAX_EPOCH - Number(u[..k])) % MAX_EPOCH else Number(u[..k]))
  }

  lemma {:induction false} DigitsBack(n: nat)
    ensures Number(Digits(n)) == n
  {
    var s := Digits(n);
    if n >= 10 {
      DigitsBack(n / 10);
      assert s[..|s| - 1] == Digits(n / 10);
    } else {
      assert s[..|s| - 1] == [];
      assert Number(s[..0]) == 0;
    }
    assert ValueOf(s[|s| - 1]) == n % 10;
  }

  lemma {:induction false} SkipIs(blanks: string, rest: string)
    requires (forall i :: 0 <= i < |blanks| ==> IsBlank(blanks[i])) && (rest == "" || !IsBlank(rest[0]))
    ensures SkipBlanks(blanks + rest) == rest
  {
    if blanks == "" {
      assert blanks + rest == rest;
    } else {
      assert (blanks + rest)[1..] == blanks[1..] + rest;
      SkipIs(blanks[1..], rest);
    }
  }

  lemma NumberIs(n: nat, rest: string)
    requires rest == "" || !IsDigit(rest[0])
    ensures var u := Digits(n) + rest;
            LeadingDigits(u) == |Digits(n)| > 0 && u[..|Digits(n)|] == Digits(n) && Number(Digits(n)) == n
  {
    hide Digits, Number, LeadingDigits;
    LeadingIs(Digits(n), rest);
    assert (Digits(n) + rest)[..|Digits(n)|] == Digits(n);
    DigitsBack(n);
  }

  /** What stoul makes of blanks, a sign, the digits of n and some text after them. */
  lemma StoulIs(blanks: string, sign: string, n: nat, rest: string)
    requires (forall i :: 0 <= i < |blanks| ==> IsBlank(blanks[i])) && (sign == "" || sign == "+" || sign == "-")
    requires rest == "" || !IsDigit(rest[0])
    ensures Stoul(blanks + (sign + (Digits(n) + rest))) ==
            if n >= MAX_EPOCH then Throws else if sign == "-" && n > 0 then Value(MAX_EPOCH - n) else Value(n)
  {
    hide Digits, Number, LeadingDigits, SkipBlanks;
    var u := Digits(n) + rest;
    var t := sign + u;
    assert u[0] == Digits(n)[0];
    assert if sign == "" then t == u else t[0] == sign[0] && t[1..] == u;
    SkipIs(blanks, t);
    NumberIs(n, rest);
  }

  lemma {:induction false} LeadingIs(digits: string, rest: string)
    requires (forall i :: 0 <= i < |digits| ==> IsDigit(digits[i])) && (rest == "" || !IsDigit(rest[0]))
    ensures LeadingDigits(digits + rest) == |digits|
  {
    if digits == "" {
      assert digits + rest == rest;
    } else {
      assert (digits + rest)[1..] == digits[1..] + rest;
      LeadingIs(digits[1..], rest);
    }
  }

  // ---- printing ----

  /** The addresses of a set in its iteration order, joined by ':'. */
  function Join(peers: seq<string>): string {
    if peers == [] then "" else if |peers| == 1 then peers[0] else peers[0] + ":" + Join(peers[1..])
  }

  function Printed(peers: seq<string>, epoch: nat): string {
    (if epoch != 0 then Digits(epoch) + "/" else "") + Join(peers)
  }

  /** Joining one more address at the end. */
  lemma {:induction false} JoinSnoc(peers: seq<string>, last: string)
    requires peers != []
    ensures Join(peers + [last]) == Join(peers) + ":" + last
  {
    if |peers| == 1 {
      assert (peers + [last])[1..] == [last];
    } else {
      assert (peers + [last])[1..] == peers[1..] + [last];
      JoinSnoc(peers[1..], last);
    }
  }

  /** generateIpString over a set whose iteration order is `peers`. */
  method GenerateIpString(peers: seq<string>, epoch: nat) returns (out: string)
    ensures out == Printed(peers, epoch)
  {
    out := "";
    if epoch != 0 {
      out := Digits(epoch) + "/";
    }
    if peers == [] {
      return;
    }
    ghost var head := out;
    out := out + peers[0];
    var i := 1;
    assert peers[..1] == [peers[0]];
    while i < |peers|
      invariant 1 <= i <= |peers| && out == head + Join(peers[..i])
    {
      out := out + ":" + peers[i];
      JoinSnoc(peers[..i], peers[i]);
      assert peers[..i + 1] == peers[..i] + [peers[i]];
      i := i + 1;
    }
    assert peers[..i] == peers;
  }

  // ---- parsing ----

  /** The pieces of s between the colons. */
  function Split(s: string): (pieces: seq<string>)
    ensures pieces != []
    decreases |s|
  {
    var i := Find(s, ':');
    if i == |s| then [s] else [s[..i]] + Split(s[i + 1..])
  }

  function SetOf(pieces: seq<string>): set<string> {
    set i | 0 <= i < |pieces| :: pieces[i]
  }

  /** What parseIpString returns and leaves in an empty set. */
  function Parse(s: string): Parsed {
    if s == [] then Success(0, 0, {}) else
      var slash := Find(s, '/');
      if slash == |s| then Success(0, |Split(s)|, SetOf(Split(s)))
      else
        var epoch := if slash == 0 then Value(0) else Stoul(s[..slash]);
        if epoch.Throws? then Failure
        else if slash == |s| - 1 then Success(epoch.n, 0, {})
        else Success(epoch.n, |Split(s[slash + 1..])|, SetOf(Split(s[slash + 1..])))
  }

  /** parseIpString with its do-while over the colons. */
  method ParseIpString(s: string) returns (r: Parsed)
    ensures r == Parse(s)
  {
    if s == [] {
      return Success(0, 0, {});
    }
    var slash := Find(s, '/');
    var epoch := 0;
    var pos := 0;
    if slash < |s| {
      if slash != 0 {
        var v := Stoul(s[..slash]);
        if v.Throws? { return Failure; }
        epoch := v.n;
      }
      if slash == |s| - 1 {
        return Success(epoch, 0, {});
      }
      pos := slash + 1;
    }
    var cnt, peers := ParsePeers(s, pos);
    return Success(epoch, cnt, peers);
  }

  /** The do-while over the colons, from pos on. */
  method ParsePeers(s: string, start: nat) returns (cnt: nat, peers: set<string>)
    requires start <= |s|
    ensures cnt == |Split(s[start..])| && peers == SetOf(Split(s[start..]))
  {
    hide Find, SetOf, Split;
    ghost var want := Split(s[start..]);
    ghost var seen: seq<string> := [];
    var pos, more := start, true;
    cnt, peers := 0, {};
    assert peers == SetOf(seen) by { EmptySetOf(); }
    while more
      invariant pos <= |s| && cnt == |seen| && peers == SetOf(seen)
      invariant if more then want == seen + Split(s[pos..]) else want == seen
      decreases more, |s| - pos
    {
      var next := Find(s[pos..], ':');
      var piece := s[pos..][..next];
      PieceStep(want, seen, s, pos);
      peers := peers + {piece};
      SetOfSnoc(seen, piece);
      seen := seen + [piece];
      cnt := cnt + 1;
      if next < |s[pos..]| {
        pos := pos + next + 1;
      } else {
        more := false;
      }
    }
  }

  /** The piece up to the next colon goes from what is left to what has been seen. */
  lemma PieceStep(want: seq<string>, seen: seq<string>, s: string, pos: nat)
    requires pos <= |s| && want == seen + Split(s[pos..])
    ensures var next := Find(s[pos..], ':');
            if next == |s[pos..]| then want == seen + [s[pos..][..next]]
            else want == seen + [s[pos..][..next]] + Split(s[pos + next + 1..])
  {
    hide Find;
    var rest := s[pos..];
    var next := Find(rest, ':');
    if next < |rest| {
      assert rest[next + 1..] == s[pos + next + 1..];
      assert seen + ([rest[..next]] + Split(rest[next + 1..])) == seen + [rest[..next]] + Split(rest[next + 1..]);
    } else {
      assert rest[..next] == rest;
    }
  }

  lemma EmptySetOf()
    ensures SetOf([]) == {}
  {
  }

  lemma SetOfSnoc(pieces: seq<string>, last: string)
    ensures SetOf(pieces + [last]) == SetOf(pieces) + {last}
  {
    var all := pieces + [last];
    forall x | x in SetOf(pieces) + {last} ensures x in SetOf(all) {
      if x in SetOf(pieces) {
        var i :| 0 <= i < |pieces| && pieces[i] == x;
        assert all[i] == x;
      } else {
        assert all[|pieces|] == x;
      }
    }
  }

  // ---- round trip ----

  predicate Lacks(s: string, c: char) {
    forall i :: 0 <= i < |s| ==> s[i] != c
  }

  lemma FindIs(s: string, c: char, i: nat)
    requires i <= |s| && (i < |s| ==> s[i] == c) && forall j :: 0 <= j < i ==> s[j] != c
    ensures Find(s, c) == i
  {
  }

  lemma {:induction false} JoinLacksIff(peers: seq<string>)
    ensures Lacks(Join(peers), '/') <==> AllLack(peers, '/')
  {
    if |peers| > 1 {
      JoinLacksIff(peers[1..]);
      JoinedPart(peers[0], Join(peers[1..]));
      AllLackRest(peers);
    }
  }

  lemma AllLackRest(peers: seq<string>)
    requires peers != []
    ensures AllLack(peers, '/') <==> Lacks(peers[0], '/') && AllLack(peers[1..], '/')
  {
    hide Lacks;
    assert forall i :: 0 < i < |peers| ==> peers[i] == peers[1..][i - 1];
  }

  lemma JoinedPart(first: string, rest: string)
    ensures Lacks(first + ":" + rest, '/') <==> Lacks(first, '/') && Lacks(rest, '/')
  {
    var s := first + ":" + rest;
    assert forall i :: 0 <= i < |first| ==> s[i] == first[i];
    assert forall i :: 0 <= i < |rest| ==> s[|first| + 1 + i] == rest[i];
  }

  lemma SplitCons(first: string, rest: string)
    requires Lacks(first, ':')
    ensures Split(first + ":" + rest) == [first] + Split(rest)
  {
    var s := first + ":" + rest;
    FindIs(s, ':', |first|);
    assert s[..|first|] == first && s[|first| + 1..] == rest;
  }

  /** Splitting what was joined gives the addresses back. */
  lemma {:induction false} SplitJoin(peers: seq<string>)
    requires peers != [] && AllLack(peers, ':')
    ensures Split(Join(peers)) == peers
  {
    hide Find, Split;
    if |peers| == 1 {
      SplitOne(peers[0]);
    } else {
      SplitJoin(peers[1..]);
      SplitCons(peers[0], Join(peers[1..]));
    }
  }

  lemma SplitOne(s: string)
    requires Lacks(s, ':')
    ensures Split(s) == [s]
  {
    FindIs(s, ':', |s|);
  }

  lemma {:induction false} SetOfCount(peers: seq<string>)
    requires Distinct(peers)
    ensures |SetOf(peers)| == |peers|
  {
    if peers == [] {
      assert SetOf(peers) == {};
    } else {
      var init, last := peers[..|peers| - 1], peers[|peers| - 1];
      SetOfCount(init);
      assert peers == init + [last];
      SetOfSnoc(init, last);
      assert last !in SetOf(init);
    }
  }

  /** No piece has a colon in it. */
  lemma {:induction false} PiecesLack(s: string)
    ensures forall i :: 0 <= i < |Split(s)| ==> Lacks(Split(s)[i], ':')
    decreases |s|
  {
    var i := Find(s, ':');
    if i < |s| {
      PiecesLack(s[i + 1..]);
    }
  }

  /** Cutting characters off the front shortens the first piece or loses pieces. */
  lemma {:induction false} SplitSuffix(s: string, k: nat)
    requires k <= |s|
    ensures |Split(s[k..])| <= |Split(s)|
    ensures |Split(s[k..])| == |Split(s)| ==>
              k <= |Split(s)[0]| && Split(s[k..]) == [Split(s)[0][k..]] + Split(s)[1..]
    decreases |s|
  {
    hide Find;
    var i := Find(s, ':');
    if k <= i {
      FindIs(s[k..], ':', i - k);
      if i < |s| {
        assert s[k..][..i - k] == s[..i][k..];
        assert s[k..][i - k + 1..] == s[i + 1..];
      }
    } else {
      SplitSuffix(s[i + 1..], k - i - 1);
      assert s[k..] == s[i + 1..][k - i - 1..];
    }
  }

  lemma SameSets(peers: seq<string>, pieces: seq<string>)
    requires SetOf(pieces) == SetOf(peers)
    ensures forall i :: 0 <= i < |peers| ==> peers[i] in pieces
  {
    forall i | 0 <= i < |peers| ensures peers[i] in pieces {
      assert peers[i] in SetOf(pieces);
    }
  }

  predicate Distinct(peers: seq<string>) {
    forall i, j :: 0 <= i < j < |peers| ==> peers[i] != peers[j]
  }

  predicate AllLack(peers: seq<string>, c: char) {
    forall i :: 0 <= i < |peers| ==> Lacks(peers[i], c)
  }

  /** With the first part of the joined addresses cut off, they are not what comes back. */
  lemma CutDiffers(peers: seq<string>, k: nat)
    requires peers != [] && Distinct(peers) && 0 < k <= |Join(peers)|
    ensures !(|Split(Join(peers)[k..])| == |peers| && SetOf(Split(Join(peers)[k..])) == SetOf(peers))
  {
    hide Find, Split, Join, SetOf, Distinct;
    var pieces := Split(Join(peers)[k..]);
    if |pieces| == |peers| && SetOf(pieces) == SetOf(peers) {
      SameSets(peers, pieces);
      PiecesLack(Join(peers)[k..]);
      SplitJoin(peers);
      SplitSuffix(Join(peers), k);
      CutFirst(peers, k);
    }
  }

  lemma CutFirst(peers: seq<string>, k: nat)
    requires peers != [] && Distinct(peers) && 0 < k <= |peers[0]|
    ensures peers[0] !in [peers[0][k..]] + peers[1..]
  {
    assert |peers[0][k..]| < |peers[0]|;
  }

  lemma {:induction false} JoinEmpty(peers: seq<string>)
    ensures Join(peers) == "" <==> peers == [] || peers == [""]
  {
  }

  /** What is parsed from the joined addresses alone is what was joined if and only if no address
      has a colon. */
  lemma PiecesAre(peers: seq<string>)
    requires peers != [] && Distinct(peers)
    ensures |Split(Join(peers))| == |SetOf(peers)| && SetOf(Split(Join(peers))) == SetOf(peers) <==> AllLack(peers, ':')
  {
    SetOfCount(peers);
    if AllLack(peers, ':') {
      SplitJoin(peers);
    } else if SetOf(Split(Join(peers))) == SetOf(peers) {
      SameSets(peers, Split(Join(peers)));
      PiecesLack(Join(peers));
    }
  }

  /** The epoch in front of the first slash is read back, and the addresses after it. */
  lemma ParseEpoch(peers: seq<string>, epoch: nat)
    requires 0 < epoch < MAX_EPOCH
    ensures Parse(Printed(peers, epoch)) ==
            if Join(peers) == "" then Success(epoch, 0, {})
            else Success(epoch, |Split(Join(peers))|, SetOf(Split(Join(peers))))
  {
    hide Split, SetOf;
    var s, d := Printed(peers, epoch), Digits(epoch);
    assert s == d + "/" + Join(peers);
    FindIs(s, '/', |d|);
    assert s[..|d|] == d && s[|d| + 1..] == Join(peers);
    assert d[..|d|] == d;
    DigitsBack(epoch);
    assert IsDigit(d[0]) && SkipBlanks(d) == d;
    assert Stoul(d) == Value(epoch);
  }

  /** What parseIpString makes of text before the first slash and text after it: no text before it is
      epoch 0, text stoul refuses is a failure, no text after it no address, not even an empty one. */
  lemma ParseIs(head: string, tail: string)
    requires Lacks(head, '/')
    ensures var number := if head == "" then Value(0) else Stoul(head);
            Parse(head + "/" + tail) ==
            if number.Throws? then Failure
            else if tail == "" then Success(number.n, 0, {})
            else Success(number.n, |Split(tail)|, SetOf(Split(tail)))
    ensures Parse(head) == if head == "" then Success(0, 0, {}) else Success(0, |Split(head)|, SetOf(Split(head)))
  {
    hide Split, SetOf, Stoul;
    var s := head + "/" + tail;
    FindIs(s, '/', |head|);
    FindIs(head, '/', |head|);
    assert s[..|head|] == head && s[|head| + 1..] == tail;
  }

  /** Without an epoch a slash in an address is taken for the end of one. */
  lemma SlashMisread(peers: seq<string>)
    requires peers != [] && Distinct(peers) && !Lacks(Join(peers), '/')
    ensures Parse(Join(peers)) != Success(0, |SetOf(peers)|, SetOf(peers))
  {
    hide Stoul, Split, SetOf, Join;
    var s := Join(peers);
    var slash := Find(s, '/');
    assert slash < |s|;
    SetOfCount(peers);
    if slash < |s| - 1 {
      CutDiffers(peers, slash + 1);
    }
  }

  /** Round trip, with its exact condition: whatever epoch and set of addresses is printed is
      parsed back with the count of the set, the empty set and epoch 0 included, if and only if no
      address has a colon, the set is not just the empty address, and, without an epoch, no
      address has a slash. */
  lemma RoundTripIff(peers: seq<string>, epoch: nat)
    requires Distinct(peers) && epoch < MAX_EPOCH
    ensures Parse(Printed(peers, epoch)) == Success(epoch, |SetOf(peers)|, SetOf(peers))
            <==> AllLack(peers, ':') && peers != [""] && (epoch == 0 ==> AllLack(peers, '/'))
  {
    if epoch > 0 { RoundTripEpoch(peers, epoch); } else { RoundTripBare(peers); }
  }

  lemma Short(peers: seq<string>)
    requires peers == [] || peers == [""]
    ensures |SetOf(peers)| == |peers| && SetOf(peers) == if peers == [] then {} else {""}
    ensures AllLack(peers, ':') && AllLack(peers, '/') && Join(peers) == ""
  {
    SetOfCount(peers);
  }

  lemma RoundTripEpoch(peers: seq<string>, epoch: nat)
    requires Distinct(peers) && 0 < epoch < MAX_EPOCH
    ensures Parse(Printed(peers, epoch)) == Success(epoch, |SetOf(peers)|, SetOf(peers))
            <==> AllLack(peers, ':') && peers != [""]
  {
    hide Parse, Printed, Split, SetOf, AllLack, Join;
    JoinEmpty(peers);
    ParseEpoch(peers, epoch);
    if peers == [] || peers == [""] {
      Short(peers);
    } else {
      PiecesAre(peers);
    }
  }

  lemma RoundTripBare(peers: seq<string>)
    requires Distinct(peers)
    ensures Parse(Printed(peers, 0)) == Success(0, |SetOf(peers)|, SetOf(peers))
            <==> AllLack(peers, ':') && peers != [""] && AllLack(peers, '/')
  {
    hide Split, SetOf, AllLack, Find;
    JoinEmpty(peers);
    assert Printed(peers, 0) == Join(peers);
    hide Join;
    if peers == [] || peers == [""] {
      Short(peers);
    } else {
      PiecesAre(peers);
      JoinLacksIff(peers);
      if AllLack(peers, '/') {
        FindIs(Join(peers), '/', |Join(peers)|);
      } else {
        SlashMisread(peers);
      }
    }
  }

  /** What ZooKeeper holds: addresses that are not empty and free of both separators. */
  predicate Plain(peers: seq<string>) {
    AllLack(peers, ':') && AllLack(peers, '/') && forall i :: 0 <= i < |peers| ==> peers[i] != ""
  }

  /** Plain addresses always come back. */
  lemma RoundTrip(peers: seq<string>, epoch: nat)
    requires Plain(peers) && Distinct(peers) && epoch < MAX_EPOCH
    ensures Parse(Printed(peers, epoch)) == Success(epoch, |SetOf(peers)|, SetOf(peers))
  {
    hide Parse, Printed;
    assert [""][0] == "";
    RoundTripIff(peers, epoch);
  }

  // ---- paths ----

  /** A string stream read by getline: what is left, and whether the end has been reached. */
  datatype Stream = Stream(rest: string, eof: bool)

  /** getline up to '/', keeping the old line when the stream is already exhausted. */
  function GetLine(st: Stream, line: string): (Stream, string) {
    if st.eof then (st, line) else
      var i := Find(st.rest, '/');
      if i == |st.rest| then (Stream("", true), st.rest) else (Stream(st.rest[i + 1..], false), st.rest[..i])
  }

  /** getPeerFromPath: the third field of the path. */
  function PeerFromPath(path: string): string {
    var (s1, l1) := GetLine(Stream(path, false), "");
    var (s2, l2) := GetLine(s1, l1);
    var (_, l3) := GetLine(s2, l2);
    l3
  }

  /** The node AddPeer watches for a peer. */
  function WatchedPath(host: string): string {
    "/servers" + "/" + host
  }

  /** The path of a watched node leads back to the peer if and only if its name has no '/';
      otherwise to the part of the name before the first one. */
  lemma PathRoundTrip(host: string)
    ensures PeerFromPath(WatchedPath(host)) == host <==> Lacks(host, '/')
    ensures forall i :: 0 <= i < |host| && host[i] == '/' && Lacks(host[..i], '/') ==>
              PeerFromPath(WatchedPath(host)) == host[..i]
  {
    hide Find;
    var path := WatchedPath(host);
    FindIs(path, '/', 0);
    var r1 := path[1..];
    assert r1 == "servers/" + host;
    FindIs(r1, '/', 7);
    assert r1[8..] == host;
    var i := Find(host, '/');
    if Lacks(host, '/') {
      FindIs(host, '/', |host|);
    } else {
      assert i < |host|;
      forall k | 0 <= k < |host| && host[k] == '/' && Lacks(host[..k], '/') ensures k == i {
        assert forall j :: 0 <= j < k ==> host[j] == host[..k][j];
        FindIs(host, '/', k);
      }
    }
  }

  /** A path with fewer than three fields gives its last one: the line is kept once the path is used up. */
  lemma ShortPath(first: string, second: string)
    requires Lacks(first, '/') && Lacks(second, '/')
    ensures PeerFromPath(first) == first && PeerFromPath(first + "/" + second) == second
  {
    FindIs(first, '/', |first|);
    FindIs(second, '/', |second|);
    var s := first + "/" + second;
    FindIs(s, '/', |first|);
    assert s[|first| + 1..] == second;
  }
}
