/** The two model-editing scripts whose length depends on their input:
    `set_mgp`, one edit block per monthly ground temperature profile, and
    `set_con`, one confirmation per surface whose construction is replaced. */
module Keystrokes {
  import opened Results
  import opened Text
  import opened Script

  /** Monthly ground temperatures, January to June and July to December, as
      the whitespace-separated text the editor expects. */
  datatype GroundProfile = GroundProfile(janJun: string, julDez: string)

  /** The model editor opened on `<config>.cfg` in text mode. */
  function PrjArgs(config: string): seq<string> {
    ["prj", "-file", config + ".cfg", "-mode", "text"]
  }

  /** Browse/edit the model, then its context; later per profile: ground
      temperature profiles, then edit. */
  const EditMenu: seq<string> := ["m", "b"]

  /** Leave the menu, save the model, accept the configuration and
      connections files, leave the menu and the module. */
  const MgpClosing: seq<string> := ["-", "!", "", "", "-", "-"]

  /** The answers that replace profile `n`. */
  function ProfileBlock(n: nat, p: GroundProfile): seq<string> {
    EditMenu + [DecimalString(n), p.janJun, p.julDez]
  }

  /** Profiles 1 to `count` are all present. */
  predicate HasProfiles(gtp: map<int, GroundProfile>, count: nat) {
    forall k :: 1 <= k <= count ==> k in gtp
  }

  /** The blocks for profiles 1 to `count`, in ascending order. */
  function ProfileLines(gtp: map<int, GroundProfile>, count: nat): (lines: seq<string>)
    requires HasProfiles(gtp, count)
    ensures |lines| == 5 * count
  {
    if count == 0 then [] else ProfileLines(gtp, count - 1) + ProfileBlock(count, gtp[count])
  }

  /** All answers of `set_mgp`. */
  function MgpLines(gtp: map<int, GroundProfile>): seq<string>
    requires HasProfiles(gtp, |gtp|)
  {
    EditMenu + ProfileLines(gtp, |gtp|) + MgpClosing
  }

  lemma ProfileJoin(n: nat, p: GroundProfile)
    ensures JoinLines(ProfileBlock(n, p)) ==
      JoinLines(EditMenu) + DecimalString(n) + "\n" + p.janJun + "\n" + p.julDez + "\n"
  {
    JoinLinesAppend(EditMenu, [DecimalString(n), p.janJun, p.julDez]);
    JoinFew(DecimalString(n), p.janJun, p.julDez);
  }

  /** One more profile appends its block to the text built so far. */
  lemma ProfileStep(gtp: map<int, GroundProfile>, n: nat, block: string)
    requires HasProfiles(gtp, n + 1)
    requires block == JoinLines(EditMenu) + DecimalString(n + 1) + "\n" + gtp[n + 1].janJun + "\n" + gtp[n + 1].julDez + "\n"
    ensures JoinLines(ProfileLines(gtp, n + 1)) == JoinLines(ProfileLines(gtp, n)) + block
  {
    ProfileJoin(n + 1, gtp[n + 1]);
    JoinLinesAppend(ProfileLines(gtp, n), ProfileBlock(n + 1, gtp[n + 1]));
  }

  /** `set_mgp(config, clm_file, gtp)` up to the point where the editor is
      started. It asks for profiles 1 to `len(gtp)` in turn, so the first
      missing key among them raises, and is the `Err` here. */
  method SetMgp(config: string, gtp: map<int, GroundProfile>) returns (r: Result<Invocation, int>)
    ensures r.Err? <==> !HasProfiles(gtp, |gtp|)
    ensures r.Err? ==> 1 <= r.error <= |gtp| && r.error !in gtp && HasProfiles(gtp, r.error - 1)
    ensures r.Ok? ==> r.value == Invocation(PrjArgs(config), JoinLines(MgpLines(gtp)), config + "_set_mgp.scratch")
  {
    var s := "";
    var n := 0;
    while n < |gtp|
      invariant 0 <= n <= |gtp|
      invariant HasProfiles(gtp, n)
      invariant s == JoinLines(ProfileLines(gtp, n))
    {
      if n + 1 !in gtp {
        return Err(n + 1);
      }
      var p := gtp[n + 1];
      var block := JoinLines(EditMenu) + DecimalString(n + 1) + "\n" + p.janJun + "\n" + p.julDez + "\n";
      ProfileStep(gtp, n, block);
      s := s + block;
      n := n + 1;
    }
    JoinLinesAppend(EditMenu, ProfileLines(gtp, |gtp|));
    JoinLinesAppend(EditMenu + ProfileLines(gtp, |gtp|), MgpClosing);
    r := Ok(Invocation(PrjArgs(config), JoinLines(EditMenu) + s + JoinLines(MgpClosing), config + "_set_mgp.scratch"));
  }

  /** Profile `n` of `count` occupies answers `5 * (n - 1)` to `5 * n - 1`. */
  lemma {:induction false} ProfileAt(gtp: map<int, GroundProfile>, count: nat, n: nat, j: nat)
    requires HasProfiles(gtp, count)
    requires 1 <= n <= count && j < 5
    ensures ProfileLines(gtp, count)[5 * (n - 1) + j] == ProfileBlock(n, gtp[n])[j]
    decreases count
  {
    var before := ProfileLines(gtp, count - 1);
    assert ProfileLines(gtp, count) == before + ProfileBlock(count, gtp[count]);
    if n < count {
      ProfileAt(gtp, count - 1, n, j);
    }
  }

  lemma BlockAt(n: nat, p: GroundProfile)
    ensures |ProfileBlock(n, p)| == 5
    ensures ProfileBlock(n, p)[2] == DecimalString(n)
    ensures ProfileBlock(n, p)[3] == p.janJun && ProfileBlock(n, p)[4] == p.julDez
  {
  }

  lemma InProfiles(gtp: map<int, GroundProfile>, k: nat)
    requires HasProfiles(gtp, |gtp|)
    requires k < 5 * |gtp|
    ensures |MgpLines(gtp)| == 5 * |gtp| + 8
    ensures MgpLines(gtp)[k + 2] == ProfileLines(gtp, |gtp|)[k]
  {
  }

  /** Answer `j` of profile `n`'s block sits at position `5 * n - 3 + j` of
      the whole script. */
  lemma ProfileInScript(gtp: map<int, GroundProfile>, n: nat, j: nat)
    requires HasProfiles(gtp, |gtp|)
    requires 1 <= n <= |gtp| && j < 5
    ensures |MgpLines(gtp)| == 5 * |gtp| + 8
    ensures MgpLines(gtp)[5 * n - 3 + j] == ProfileBlock(n, gtp[n])[j]
  {
    ProfileAt(gtp, |gtp|, n, j);
    InProfiles(gtp, 5 * (n - 1) + j);
  }

  /** The script asks for the profiles in ascending order: the profile number
      answered in block `n` reads back as `n`, followed by that profile's
      two halves of the year. */
  lemma MgpProfilesAscending(gtp: map<int, GroundProfile>, n: nat)
    requires HasProfiles(gtp, |gtp|)
    requires 1 <= n <= |gtp|
    ensures var lines := MgpLines(gtp);
      && |lines| == 5 * |gtp| + 8
      && lines[5 * n - 1] == DecimalString(n)
      && DecimalValue(lines[5 * n - 1]) == n
      && lines[5 * n] == gtp[n].janJun
      && lines[5 * n + 1] == gtp[n].julDez
  {
    BlockAt(n, gtp[n]);
    ProfileInScript(gtp, n, 2);
    ProfileInScript(gtp, n, 3);
    ProfileInScript(gtp, n, 4);
    DecimalRoundTrip(n);
  }

  /** Profiles whose halves of the year fit on one line. */
  predicate SingleLineProfiles(gtp: map<int, GroundProfile>) {
    forall k :: k in gtp ==> NoNewline(gtp[k].janJun) && NoNewline(gtp[k].julDez)
  }

  lemma BlockNoNewline(n: nat, p: GroundProfile)
    requires NoNewline(p.janJun) && NoNewline(p.julDez)
    ensures NoNewlines(ProfileBlock(n, p))
  {
    var block := ProfileBlock(n, p);
    DecimalNoNewline(n);
    assert block == ["m", "b", DecimalString(n), p.janJun, p.julDez];
    assert '\n' !in "m" && '\n' !in "b";
    NewlineFree("m");
    NewlineFree("b");
  }

  lemma {:induction false} ProfileLinesNoNewline(gtp: map<int, GroundProfile>, count: nat)
    requires HasProfiles(gtp, count) && SingleLineProfiles(gtp)
    ensures NoNewlines(ProfileLines(gtp, count))
  {
    if count > 0 {
      ProfileLinesNoNewline(gtp, count - 1);
      BlockNoNewline(count, gtp[count]);
      NoNewlinesAppend(ProfileLines(gtp, count - 1), ProfileBlock(count, gtp[count]));
    }
  }

  /** With single-line profiles the editor reads the answers back one per
      prompt. */
  lemma MgpReadBack(config: string, gtp: map<int, GroundProfile>)
    requires HasProfiles(gtp, |gtp|) && SingleLineProfiles(gtp)
    ensures SplitLines(JoinLines(MgpLines(gtp))) == MgpLines(gtp)
  {
    var profiles := ProfileLines(gtp, |gtp|);
    ProfileLinesNoNewline(gtp, |gtp|);
    assert forall i :: 0 <= i < |EditMenu| ==> '\n' !in EditMenu[i];
    assert forall i :: 0 <= i < |MgpClosing| ==> '\n' !in MgpClosing[i];
    forall i | 0 <= i < |EditMenu| ensures NoNewline(EditMenu[i]) {
      NewlineFree(EditMenu[i]);
    }
    forall i | 0 <= i < |MgpClosing| ensures NoNewline(MgpClosing[i]) {
      NewlineFree(MgpClosing[i]);
    }
    NoNewlinesAppend(EditMenu, profiles);
    NoNewlinesAppend(EditMenu + profiles, MgpClosing);
    SplitJoin(MgpLines(gtp));
  }

  // set_con

  /** The constructions to swap: category and entry letters of the old and the
      new construction. */
  datatype Swap = Swap(oldClass: string, oldCon: string, newClass: string, newCon: string)

  /** Browse/edit, composition, global tasks, search and replace, continue,
      the two constructions, all zones, leave the menu. */
  function ConHead(w: Swap): seq<string> {
    ["m", "c", "*", "f", "c", w.oldClass, w.oldCon, w.newClass, w.newCon, "*", "-"]
  }

  /** Leave the menu, save the model under its configuration and connections
      files, leave the menu and the module. */
  function ConTail(config: string, cnnFile: string): seq<string> {
    ["-", "!", config + ".cfg", cnnFile + ".cnn", "-", "-"]
  }

  /** `count` confirmations; Python's `range` of a negative count is empty. */
  function Confirmations(count: int): (lines: seq<string>)
    ensures |lines| == if count < 0 then 0 else count
    ensures forall i :: 0 <= i < |lines| ==> lines[i] == "y"
  {
    seq(if count < 0 then 0 else count, _ => "y")
  }

  /** All answers of `set_con`. */
  function ConLines(config: string, cnnFile: string, w: Swap, count: int): seq<string> {
    ConHead(w) + Confirmations(count) + ConTail(config, cnnFile)
  }

  /** `set_con(...)` up to the point where the editor is started, with the
      number of matching surfaces `count` already counted. */
  method SetCon(config: string, cnnFile: string, w: Swap, count: int) returns (r: Invocation)
    ensures r.args == PrjArgs(config)
    ensures r.scratch == config + "_set_roomcon_" + w.newCon + ".scratch"
    ensures r.input == JoinLines(ConLines(config, cnnFile, w, count))
  {
    var s := "";
    var i := 0;
    while i < count
      invariant 0 <= i && (count >= 0 ==> i <= count) && (count < 0 ==> i == 0)
      invariant s == JoinLines(Confirmations(i))
    {
      assert Confirmations(i + 1) == Confirmations(i) + ["y"];
      JoinLinesAppend(Confirmations(i), ["y"]);
      JoinFew("y", "", "");
      s := s + "y\n";
      i := i + 1;
    }
    assert Confirmations(i) == Confirmations(count);
    JoinLinesAppend(ConHead(w), Confirmations(count));
    JoinLinesAppend(ConHead(w) + Confirmations(count), ConTail(config, cnnFile));
    r := Invocation(PrjArgs(config), JoinLines(ConHead(w)) + s + JoinLines(ConTail(config, cnnFile)),
      config + "_set_roomcon_" + w.newCon + ".scratch");
  }

  /** The editor sees the head, exactly `count` confirmations (none for a
      negative count), and the tail. */
  lemma ConConfirmations(config: string, cnnFile: string, w: Swap, count: int)
    requires NoNewline(config) && NoNewline(cnnFile)
    requires NoNewline(w.oldClass) && NoNewline(w.oldCon) && NoNewline(w.newClass) && NoNewline(w.newCon)
    ensures var lines := SplitLines(JoinLines(ConLines(config, cnnFile, w, count)));
      var n := if count < 0 then 0 else count;
      && |lines| == 17 + n
      && lines[..11] == ConHead(w)
      && (forall i :: 11 <= i < 11 + n ==> lines[i] == "y")
      && lines[11 + n..] == ConTail(config, cnnFile)
  {
    var lines := ConLines(config, cnnFile, w, count);
    var n := if count < 0 then 0 else count;
    forall i | 0 <= i < |lines| ensures NoNewline(lines[i]) {
      if i < 11 {
        assert lines[i] == ConHead(w)[i];
      } else if i < 11 + n {
        assert lines[i] == "y";
      } else {
        assert lines[i] == ConTail(config, cnnFile)[i - 11 - n];
      }
    }
    SplitJoin(lines);
    assert lines[..11] == ConHead(w);
    assert lines[11 + n..] == ConTail(config, cnnFile);
  }
}
