/** Member management: the default avatar, `add_member`, `delete_member`
    and the `get_members` listing. */
module Members {
  import opened Store
  import opened Audit
  import opened Ordering

  const AvatarPrefix := "https://ui-avatars.com/api/?name="
  const AvatarSuffix := "&background=ff642c&color=fff&size=200"

  /** `name.replace(' ', '+')`: every space becomes '+', every other character stays. */
  function ReplaceSpaces(name: string): (r: string)
    ensures |r| == |name|
    ensures forall i :: 0 <= i < |r| ==> r[i] == if name[i] == ' ' then '+' else name[i]
  {
    if name == [] then []
    else [if name[0] == ' ' then '+' else name[0]] + ReplaceSpaces(name[1..])
  }

  /** The one step of query-string decoding that undoes `ReplaceSpaces`:
      '+' read back as a space. A real query-string parser also splits at '&'
      and percent-decodes, so a name holding '&' or '%' does not come back
      whole from one; this partial reader only shows what the rewrite keeps. */
  function PlusToSpace(s: string): (r: string)
    ensures |r| == |s|
    ensures forall i :: 0 <= i < |r| ==> r[i] == if s[i] == '+' then ' ' else s[i]
  {
    if s == [] then []
    else [if s[0] == '+' then ' ' else s[0]] + PlusToSpace(s[1..])
  }

  /** The avatar a member gets when the request has no `avatar` key. */
  function DefaultAvatar(name: string): string
  {
    AvatarPrefix + ReplaceSpaces(name) + AvatarSuffix
  }

  /** Reading '+' back as a space undoes the rewrite for a name without '+'. */
  lemma {:induction false} PlusToSpaceUndoesReplace(name: string)
    requires '+' !in name
    ensures PlusToSpace(ReplaceSpaces(name)) == name
  {
    var back := PlusToSpace(ReplaceSpaces(name));
    forall i | 0 <= i < |name|
      ensures back[i] == name[i]
    {
      assert name[i] in name;
    }
  }

  /** The three parts of a concatenation are its slices. */
  lemma SlicesOfConcat(a: string, b: string, c: string)
    ensures (a + b + c)[..|a|] == a
    ensures (a + b + c)[|a|..|a| + |b|] == b
    ensures (a + b + c)[|a| + |b|..] == c
  {
  }

  /** The default avatar is the fixed URL around the name with its spaces
      written as '+': its name parameter holds no space, and for a name
      without '+' it reads back as the name. */
  lemma {:induction false} DefaultAvatarCarriesName(name: string)
    ensures var url := DefaultAvatar(name);
            var param := url[|AvatarPrefix|..|AvatarPrefix| + |name|];
            && |url| == |AvatarPrefix| + |name| + |AvatarSuffix|
            && url[..|AvatarPrefix|] == AvatarPrefix
            && url[|AvatarPrefix| + |name|..] == AvatarSuffix
            && ' ' !in param
            && ('+' !in name ==> PlusToSpace(param) == name)
  {
    var mid := ReplaceSpaces(name);
    SlicesOfConcat(AvatarPrefix, mid, AvatarSuffix);
    assert forall i :: 0 <= i < |mid| ==> mid[i] != ' ';
    if '+' !in name {
      PlusToSpaceUndoesReplace(name);
    }
  }

  /** Only spaces are rewritten and nothing is percent-encoded: "A+B" gets
      the same avatar as "A B", and '&' is copied as is. */
  lemma DefaultAvatarOnlyRewritesSpaces()
    ensures DefaultAvatar("A B") == AvatarPrefix + "A+B" + AvatarSuffix
    ensures DefaultAvatar("A+B") == DefaultAvatar("A B")
    ensures DefaultAvatar("A&B") == AvatarPrefix + "A&B" + AvatarSuffix
  {
    assert ReplaceSpaces("A B") == "A+B";
    assert ReplaceSpaces("A+B") == "A+B";
    assert ReplaceSpaces("A&B") == "A&B";
  }

  /** `add_member`: a missing or empty name is a 400, a name already in use is
      a 400 that changes nothing, and otherwise the member is stored under the
      next AUTOINCREMENT id with the given avatar, or the default one when the
      request has no avatar, and ADD_MEMBER is logged. */
  function AddMember(st: State, name: Option<string>, avatar: Option<string>): (s: Step)
    ensures !NonEmpty(name) ==> s == Fail(st, NameRequired)
    ensures NonEmpty(name) && NameTaken(st.members, name.value) ==> s == Fail(st, MemberExists)
    ensures NonEmpty(name) && !NameTaken(st.members, name.value) ==>
              var id := st.nextMemberId;
              var av := if avatar.Some? then avatar.value else DefaultAvatar(name.value);
              && s.result == Ok(MemberAdded(MemberInfo(id, name.value, av)))
              && s.state.members.Keys == st.members.Keys + {id}
              && s.state.members[id] == Member(name.value, av)
              && (forall k :: k in st.members && k != id ==> s.state.members[k] == st.members[k])
              && s.state.nextMemberId == id + 1
              && s.state.log == st.log + [AuditEntry(Actor(st), AddMemberAction(name.value, id))]
              && s.state == st.(members := s.state.members, nextMemberId := s.state.nextMemberId, log := s.state.log)
  {
    if !NonEmpty(name) then Fail(st, NameRequired)
    else if NameTaken(st.members, name.value) then Fail(st, MemberExists)
    else
      var id := st.nextMemberId;
      var av := if avatar.Some? then avatar.value else DefaultAvatar(name.value);
      var added := st.(members := st.members[id := Member(name.value, av)], nextMemberId := id + 1);
      Step(Ok(MemberAdded(MemberInfo(id, name.value, av))), LogAction(added, AddMemberAction(name.value, id)))
  }

  /** The rows of `t` that do not belong to member `id`, for every period. */
  function DropMember(t: Table, id: nat): Table
  {
    map k | k in t && k.member != id :: t[k]
  }

  /** `delete_member`: an unknown id is a 404 that changes nothing; otherwise
      the member and all of its weekly and monthly rows, of every period, are
      removed, everything else is kept, and DELETE_MEMBER is logged. */
  function DeleteMember(st: State, id: nat): (s: Step)
    ensures id !in st.members ==> s == Fail(st, MemberNotFound)
    ensures id in st.members ==>
              var name := st.members[id].name;
              && s.result == Ok(MemberDeleted(name))
              && s.state.members.Keys == st.members.Keys - {id}
              && (forall k :: k in s.state.members ==> s.state.members[k] == st.members[k])
              && (forall k :: k in s.state.weekly <==> k in st.weekly && k.member != id)
              && (forall k :: k in s.state.weekly ==> s.state.weekly[k] == st.weekly[k])
              && (forall k :: k in s.state.monthly <==> k in st.monthly && k.member != id)
              && (forall k :: k in s.state.monthly ==> s.state.monthly[k] == st.monthly[k])
              && s.state.log == st.log + [AuditEntry(Actor(st), DeleteMemberAction(name, id))]
              && s.state.nextMemberId == st.nextMemberId
              && s.state.admins == st.admins && s.state.session == st.session
  {
    if id !in st.members then Fail(st, MemberNotFound)
    else
      var name := st.members[id].name;
      var pruned := st.(members := st.members - {id},
                        weekly := DropMember(st.weekly, id),
                        monthly := DropMember(st.monthly, id));
      Step(Ok(MemberDeleted(name)), LogAction(pruned, DeleteMemberAction(name, id)))
  }

  function NameOf(members: map<nat, Member>, id: nat): string
  {
    if id in members then members[id].name else ""
  }

  /** ORDER BY name, with the id deciding between equal names (which a valid store never has). */
  predicate NameBefore(members: map<nat, Member>, a: nat, b: nat)
  {
    StrLess(NameOf(members, a), NameOf(members, b))
    || (NameOf(members, a) == NameOf(members, b) && a < b)
  }

  function NameOrder(members: map<nat, Member>): (nat, nat) -> bool
  {
    (a: nat, b: nat) => NameBefore(members, a, b)
  }

  lemma NameOrderIsStrictTotal(members: map<nat, Member>)
    ensures StrictTotal(NameOrder(members))
  {
    var before := NameOrder(members);
    forall a: nat
      ensures !before(a, a)
    {
      StrLessIrreflexive(NameOf(members, a));
    }
    forall a: nat, b: nat, c: nat | before(a, b) && before(b, c)
      ensures before(a, c)
    {
      var x, y, z := NameOf(members, a), NameOf(members, b), NameOf(members, c);
      if StrLess(x, y) && StrLess(y, z) {
        StrLessTransitive(x, y, z);
      }
    }
    forall a: nat, b: nat | a != b
      ensures before(a, b) || before(b, a)
    {
      if NameOf(members, a) != NameOf(members, b) {
        StrLessTotal(NameOf(members, a), NameOf(members, b));
      }
    }
  }

  /** The member ids, each once, in ascending name order. */
  function IdsByName(members: map<nat, Member>): (ids: seq<nat>)
    ensures |ids| == |members| && Elems(ids) == members.Keys && Distinct(ids)
    ensures forall i, j :: 0 <= i < j < |ids| ==> NameBefore(members, ids[i], ids[j])
  {
    NameOrderIsStrictTotal(members);
    SortBy(members.Keys, NameOrder(members))
  }

  function InfoOf(members: map<nat, Member>, id: nat): MemberInfo
  {
    if id in members then MemberInfo(id, members[id].name, members[id].avatar) else MemberInfo(id, "", "")
  }

  /** What a member listing is: every member exactly once with its stored
      name and avatar, in ascending name order. */
  predicate IsListing(members: map<nat, Member>, r: seq<MemberInfo>)
  {
    && |r| == |members|
    && (forall i :: 0 <= i < |r| ==> r[i].id in members && r[i] == MemberInfo(r[i].id, members[r[i].id].name, members[r[i].id].avatar))
    && (forall id :: id in members ==> exists i :: 0 <= i < |r| && r[i].id == id)
    && (forall i, j :: 0 <= i < j < |r| ==> r[i].id != r[j].id)
    && (forall i, j :: 0 <= i < j < |r| ==> StrLess(r[i].name, r[j].name) || r[i].name == r[j].name)
  }

  /** `get_members`. */
  function ListMembers(st: State): (r: seq<MemberInfo>)
    ensures IsListing(st.members, r)
  {
    var ids := IdsByName(st.members);
    var r := InfoAll(st.members, ids);
    ListingFacts(st.members, ids, r);
    r
  }

  function InfoAll(members: map<nat, Member>, ids: seq<nat>): (r: seq<MemberInfo>)
    ensures |r| == |ids|
    ensures forall i :: 0 <= i < |r| ==> r[i] == InfoOf(members, ids[i])
  {
    seq(|ids|, i requires 0 <= i < |ids| => InfoOf(members, ids[i]))
  }

  lemma ListingFacts(members: map<nat, Member>, ids: seq<nat>, r: seq<MemberInfo>)
    requires |ids| == |members| && Elems(ids) == members.Keys && Distinct(ids)
    requires forall i, j :: 0 <= i < j < |ids| ==> NameBefore(members, ids[i], ids[j])
    requires |r| == |ids| && forall i :: 0 <= i < |r| ==> r[i] == InfoOf(members, ids[i])
    ensures IsListing(members, r)
  {
    forall i | 0 <= i < |r|
      ensures r[i].id == ids[i] && ids[i] in members
    {
      assert ids[i] in Elems(ids);
    }
    forall id | id in members
      ensures exists i :: 0 <= i < |r| && r[i].id == id
    {
      assert id in Elems(ids);
      var i :| 0 <= i < |ids| && ids[i] == id;
      assert r[i].id == id;
    }
  }

  /** In a valid store the listing is strictly ascending by name. */
  lemma ListingStrictlyByName(st: State)
    requires Valid(st)
    ensures var r := ListMembers(st);
            forall i, j :: 0 <= i < j < |r| ==> StrLess(r[i].name, r[j].name)
  {
  }

  lemma AddMemberPreservesValid(st: State, name: Option<string>, avatar: Option<string>)
    requires Valid(st)
    ensures Valid(AddMember(st, name, avatar).state)
  {
    if NonEmpty(name) && !NameTaken(st.members, name.value) {
      var s := AddMember(st, name, avatar).state;
      var id := st.nextMemberId;
      forall i, j | i in s.members && j in s.members && i != j
        ensures s.members[i].name != s.members[j].name
      {
        if i == id {
          assert s.members[j] == st.members[j];
        } else if j == id {
          assert s.members[i] == st.members[i];
        }
      }
    }
  }

  lemma DeleteMemberPreservesValid(st: State, id: nat)
    requires Valid(st)
    ensures Valid(DeleteMember(st, id).state)
  {
  }
}
