/**
Staging an archive, services/archive_import.py: members are copied out of the tar in
blocks, hashed as they land, and charged against one byte budget for the whole archive.
Bytes are characters here; `sha` is the hash.
*/
module Staging {
  import opened Wrappers

  const GIBIBYTE := 1024 * 1024 * 1024
  const MAXIMUM_MEMBER_BYTES := GIBIBYTE
  const MAXIMUM_TOTAL_BYTES := 4 * GIBIBYTE
  const BLOCK_BYTES := 256 * 1024

  /** A decompressing stream. How many bytes a read returns is up to the stream, short of what was asked for. */
  class ByteSource {
    const data: string
    var pos: nat
    /** Every size that was asked for. */
    ghost var asked: seq<int>

    constructor (data: string)
      ensures this.data == data && pos == 0 && asked == [] && Valid()
    {
      this.data, pos, asked := data, 0, [];
    }

    ghost predicate Valid()
      reads this
    {
      pos <= |data|
    }

    ghost function Rest(): string
      requires Valid()
      reads this
    {
      data[pos..]
    }

    /** Python's `read`: a negative size is everything, zero is nothing, and otherwise nothing means the end. */
    method Read(size: int) returns (block: string)
      requires Valid()
      modifies this
      ensures Valid() && pos == old(pos) + |block| && block == data[old(pos)..pos]
      ensures size >= 0 ==> |block| <= size
      ensures block == "" <==> size == 0 || old(pos) == |data|
      ensures asked == old(asked) + [size]
    {
      asked := asked + [size];
      var left := |data| - pos;
      var n: nat;
      if size < 0 {
        n := left;
      } else if size == 0 || left == 0 {
        n := 0;
      } else {
        n :| 1 <= n <= size && n <= left;
      }
      block := data[pos..pos + n];
      pos := pos + n;
    }
  }

  class StagedFile {
    var contents: string

    constructor ()
      ensures contents == ""
    {
      contents := "";
    }

    method Write(block: string)
      modifies this
      ensures contents == old(contents) + block
    {
      contents := contents + block;
    }
  }

  datatype Refusal = NotAPlainFile(member: string) | MemberTooLarge(member: string) | TooManyBytes

  /**
  Copy one member. It is refused for size exactly when it does not fit what is left of the
  budget; in no case is more than the budget written, or more than one byte past it read.
  */
  method Drain(sha: string -> string, source: ByteSource, target: StagedFile, budget: nat)
    returns (r: Result<(string, nat), Refusal>)
    requires source.Valid() && target.contents == ""
    modifies source, target
    ensures source.Valid()
    ensures r.Ok? <==> |old(source.Rest())| <= budget
    ensures r.Ok? ==>
              target.contents == old(source.Rest()) && r.value == (sha(target.contents), budget - |target.contents|)
    ensures r.Err? ==> r.error == TooManyBytes && target.contents <= old(source.Rest())
    ensures |target.contents| <= budget && source.pos <= old(source.pos) + budget + 1
    ensures forall i :: |old(source.asked)| <= i < |source.asked| ==> 1 <= source.asked[i] <= BLOCK_BYTES
  {
    var left: nat := budget;
    var fed := "";
    ghost var start := source.pos;
    while true
      invariant source.Valid() && source.pos == start + |target.contents|
      invariant target.contents == fed == source.data[start..source.pos]
      invariant |target.contents| + left == budget
      invariant |old(source.asked)| <= |source.asked|
      invariant forall i :: |old(source.asked)| <= i < |source.asked| ==> 1 <= source.asked[i] <= BLOCK_BYTES
      decreases |source.data| - source.pos
    {
      var block := source.Read(if BLOCK_BYTES <= left + 1 then BLOCK_BYTES else left + 1);
      if block == "" {
        break;
      }
      if |block| > left {
        return Err(TooManyBytes);
      }
      left := left - |block|;
      fed := fed + block;
      target.Write(block);
    }
    r := Ok((sha(fed), left));
  }

  /** A tar member: `size` is what its header declares, which nothing ties to its data. */
  datatype Member = Member(name: string, isFile: bool, size: nat, data: string, extractable: bool)

  datatype Staged = Staged(contents: string, digest: string)

  /** `Path(name).name == name`. */
  predicate PlainName(name: string) {
    name != "." && '/' !in name
  }

  /** What staging makes of the members, one after the other. */
  function StagedFrom(sha: string -> string, members: seq<Member>, budget: nat): Result<map<string, Staged>, Refusal> {
    if members == [] then Ok(map[])
    else
      var m := members[|members| - 1];
      match StagedFrom(sha, members[..|members| - 1], budget)
      case Err(e) => Err(e)
      case Ok(staged) =>
        if !m.isFile || !PlainName(m.name) then Err(NotAPlainFile(m.name))
        else if m.size > MAXIMUM_MEMBER_BYTES then Err(MemberTooLarge(m.name))
        else if !m.extractable then Ok(staged)
        else if TotalBytes(members) > budget then Err(TooManyBytes)
        else Ok(staged[m.name := Staged(m.data, sha(m.data))])
  }

  /** The bytes of the members that can be extracted. */
  function TotalBytes(members: seq<Member>): nat {
    if members == [] then 0
    else
      var m := members[|members| - 1];
      TotalBytes(members[..|members| - 1]) + if m.extractable then |m.data| else 0
  }

  method StageMembers(sha: string -> string, members: seq<Member>) returns (r: Result<map<string, Staged>, Refusal>)
    ensures r == StagedFrom(sha, members, MAXIMUM_TOTAL_BYTES)
  {
    var staged: map<string, Staged> := map[];
    var budget := MAXIMUM_TOTAL_BYTES;
    for i := 0 to |members|
      invariant StagedFrom(sha, members[..i], MAXIMUM_TOTAL_BYTES) == Ok(staged)
      invariant budget == MAXIMUM_TOTAL_BYTES - TotalBytes(members[..i]) >= 0
    {
      var m := members[i];
      RefusalIsFinal(sha, members, i + 1, MAXIMUM_TOTAL_BYTES);
      assert members[..i + 1][..i] == members[..i];
      if !m.isFile || !PlainName(m.name) {
        return Err(NotAPlainFile(m.name));
      }
      if m.size > MAXIMUM_MEMBER_BYTES {
        return Err(MemberTooLarge(m.name));
      }
      if !m.extractable {
        continue;
      }
      var source := new ByteSource(m.data);
      var target := new StagedFile();
      var drained := Drain(sha, source, target, budget);
      if drained.Err? {
        return Err(drained.error);
      }
      budget := drained.value.1;
      staged := staged[m.name := Staged(target.contents, drained.value.0)];
    }
    assert members[..|members|] == members;
    r := Ok(staged);
  }

  /** Staging stops at its first refusal. */
  lemma {:induction false} RefusalIsFinal(sha: string -> string, members: seq<Member>, k: nat, budget: nat)
    requires k <= |members|
    ensures StagedFrom(sha, members[..k], budget).Err? ==>
              StagedFrom(sha, members, budget) == StagedFrom(sha, members[..k], budget)
    decreases |members|
  {
    if k == |members| {
      assert members[..k] == members;
    } else {
      var n := |members| - 1;
      assert members[..n][..k] == members[..k];
      RefusalIsFinal(sha, members[..n], k, budget);
    }
  }

  predicate Acceptable(m: Member) {
    m.isFile && PlainName(m.name) && m.size <= MAXIMUM_MEMBER_BYTES
  }

  /**
  An archive is staged exactly when every member is a plain file of acceptable declared
  size and the bytes really held by all of them together fit the budget.
  */
  lemma {:induction false} StagedExactlyWithinBudget(sha: string -> string, members: seq<Member>, budget: nat)
    ensures StagedFrom(sha, members, budget).Ok?
       <==> && TotalBytes(members) <= budget
            && forall m :: m in members ==>
                 m.isFile && '/' !in m.name && m.name != "." && m.size <= 1024 * 1024 * 1024
  {
    StagedExactlyAcceptable(sha, members, budget);
    assert (forall m :: m in members ==> Acceptable(m)) <==>
        forall i :: 0 <= i < |members| ==> Acceptable(members[i]);
  }

  lemma {:induction false} StagedExactlyAcceptable(sha: string -> string, members: seq<Member>, budget: nat)
    ensures StagedFrom(sha, members, budget).Ok?
       <==> (forall i :: 0 <= i < |members| ==> Acceptable(members[i])) && TotalBytes(members) <= budget
  {
    if members != [] {
      var n := |members| - 1;
      StagedExactlyAcceptable(sha, members[..n], budget);
      assert forall i :: 0 <= i < n ==> members[..n][i] == members[i];
    }
  }

  /** Staging is refused for the total exactly when a run of acceptable members overruns it. */
  lemma {:induction false} RefusedForBytesExactlyWhenOverrun(sha: string -> string, members: seq<Member>, budget: nat)
    ensures StagedFrom(sha, members, budget) == Err(TooManyBytes)
       <==> exists k :: 0 < k <= |members| && TotalBytes(members[..k]) > budget && AllAcceptable(members[..k])
  {
    if StagedFrom(sha, members, budget) == Err(TooManyBytes) {
      var k := OverrunAt(sha, members, budget);
    }
    if k :| 0 < k <= |members| && TotalBytes(members[..k]) > budget && AllAcceptable(members[..k]) {
      StagedExactlyAcceptable(sha, members[..k], budget);
      AcceptableRefusedOnlyForBytes(sha, members[..k], budget);
      RefusalIsFinal(sha, members, k, budget);
    }
  }

  ghost predicate AllAcceptable(members: seq<Member>) {
    forall i :: 0 <= i < |members| ==> Acceptable(members[i])
  }

  lemma {:induction false} AcceptableRefusedOnlyForBytes(sha: string -> string, members: seq<Member>, budget: nat)
    requires AllAcceptable(members)
    ensures StagedFrom(sha, members, budget).Err? ==> StagedFrom(sha, members, budget) == Err(TooManyBytes)
  {
    if members != [] {
      var n := |members| - 1;
      assert forall i :: 0 <= i < n ==> members[..n][i] == members[i];
      AcceptableRefusedOnlyForBytes(sha, members[..n], budget);
    }
  }

  lemma {:induction false} OverrunAt(sha: string -> string, members: seq<Member>, budget: nat) returns (k: nat)
    requires StagedFrom(sha, members, budget) == Err(TooManyBytes)
    ensures 0 < k <= |members| && TotalBytes(members[..k]) > budget && AllAcceptable(members[..k])
  {
    var n := |members| - 1;
    if StagedFrom(sha, members[..n], budget).Err? {
      k := OverrunAt(sha, members[..n], budget);
      assert members[..n][..k] == members[..k];
    } else {
      k := |members|;
      assert members[..k] == members;
      StagedExactlyAcceptable(sha, members[..n], budget);
      assert forall i :: 0 <= i < n ==> members[..n][i] == members[i];
    }
  }

  /** What lands on disk is what was hashed, and for a repeated name the last member. */
  lemma {:induction false} StagedFilesAreTheirSources(sha: string -> string, members: seq<Member>, budget: nat,
                                                      name: string)
    requires StagedFrom(sha, members, budget).Ok? && name in StagedFrom(sha, members, budget).value
    ensures var staged := StagedFrom(sha, members, budget).value[name];
            && staged.digest == sha(staged.contents)
            && exists i :: 0 <= i < |members| && IsLastOf(members, i, name) && members[i].data == staged.contents
  {
    var n := |members| - 1;
    var m := members[n];
    if m.extractable && m.name == name {
      assert IsLastOf(members, n, name);
    } else {
      StagedFilesAreTheirSources(sha, members[..n], budget, name);
      var i :| 0 <= i < n && IsLastOf(members[..n], i, name)
               && members[..n][i].data == StagedFrom(sha, members[..n], budget).value[name].contents;
      assert IsLastOf(members, i, name);
    }
  }

  ghost predicate IsLastOf(members: seq<Member>, i: nat, name: string) {
    && i < |members| && members[i].extractable && members[i].name == name
    && forall j :: i < j < |members| && members[j].extractable ==> members[j].name != name
  }
}
