/** `ViewPathAttributeSyntaxRewriter`: a syntax rewriter that tags every class
    deriving from a Razor page type with a `ViewPath` attribute carrying the
    path of the syntax tree the class was parsed from.

    The syntax tree is reduced to what the rewriter looks at: namespaces,
    classes with their attribute lists, base lists and members, and opaque
    other members. The semantic question "does this base type have
    `IRazorPage` among its `AllInterfaces`?" is the given predicate `isPage`. */
module ViewPathRewriter {
  import opened Wrappers

  /** A type named in a class's base list. */
  datatype TypeRef = TypeRef(name: string)

  datatype AttributeName = QualifiedName(left: string, right: string) | SimpleName(name: string)

  datatype Literal = StringLiteral(value: string) | OtherLiteral(text: string)

  datatype Attribute = Attribute(name: AttributeName, arguments: seq<Literal>)

  datatype AttributeList = AttributeList(attributes: seq<Attribute>)

  /** A class declaration; a class written without a base list has `None`. */
  datatype ClassDecl = ClassDecl(
    name: string, attributeLists: seq<AttributeList>, baseList: Option<seq<TypeRef>>, members: seq<Member>)

  datatype Member =
    | ClassMember(decl: ClassDecl)
    | NamespaceMember(name: string, members: seq<Member>)
    | OtherMember(text: string)

  /** A parsed file: its `FilePath` and the members of its compilation unit. */
  datatype SyntaxTree = SyntaxTree(filePath: string, root: seq<Member>)

  /** `node.BaseList.Types` read on a class without a base list. */
  datatype RewriteError = NullBaseList(className: string)

  /** The namespace and name of the `ViewPathAttribute` type. */
  const AttributeNamespace: string := "dotnet_precompile_views"
  const AttributeTypeName: string := "ViewPathAttribute"

  /** The attribute list the rewriter adds: one attribute, named by the
      qualified name of `ViewPathAttribute`, whose one argument is the path as
      a string literal. */
  function ViewPathAttributeList(path: string): AttributeList {
    AttributeList([Attribute(QualifiedName(AttributeNamespace, AttributeTypeName), [StringLiteral(path)])])
  }

  predicate IsViewPathAttribute(a: Attribute) {
    a.name == QualifiedName(AttributeNamespace, AttributeTypeName)
  }

  predicate HasPageBase(bases: seq<TypeRef>, isPage: TypeRef -> bool) {
    exists i :: 0 <= i < |bases| && isPage(bases[i])
  }

  /** The `foreach` over the base list: the first base type that is a Razor
      page, if any. */
  function FindPageBase(bases: seq<TypeRef>, isPage: TypeRef -> bool): (r: Option<nat>)
    ensures r.Some? ==> r.value < |bases| && isPage(bases[r.value])
    ensures r.Some? ==> forall j :: 0 <= j < r.value ==> !isPage(bases[j])
    ensures r.None? <==> !HasPageBase(bases, isPage)
  {
    if bases == [] then None
    else if isPage(bases[0]) then Some(0)
    else match FindPageBase(bases[1..], isPage)
      case None => None
      case Some(i) => Some(i + 1)
  }

  /** `VisitClassDeclaration`: a class with a page base gets the attribute
      list and is returned without visiting its members; any other class is
      handed to the base visitor, which rewrites its members. */
  function VisitClass(c: ClassDecl, path: string, isPage: TypeRef -> bool): (r: Result<ClassDecl, RewriteError>)
    ensures c.baseList.None? ==> r == Err(NullBaseList(c.name))
    ensures c.baseList.Some? && HasPageBase(c.baseList.value, isPage) ==>
      r == Ok(c.(attributeLists := c.attributeLists + [ViewPathAttributeList(path)]))
    ensures c.baseList.Some? && !HasPageBase(c.baseList.value, isPage) ==>
      (r.Ok? <==> VisitMembers(c.members, path, isPage).Ok?) &&
      (r.Ok? ==> r.value == c.(members := VisitMembers(c.members, path, isPage).value)) &&
      (r.Err? ==> r.error == VisitMembers(c.members, path, isPage).error)
    decreases c
  {
    match c.baseList
    case None => Err(NullBaseList(c.name))
    case Some(bases) =>
      if FindPageBase(bases, isPage).Some? then
        Ok(c.(attributeLists := c.attributeLists + [ViewPathAttributeList(path)]))
      else
        match VisitMembers(c.members, path, isPage)
        case Err(e) => Err(e)
        case Ok(ms) => Ok(c.(members := ms))
  }

  /** The base visitor on one member. */
  function VisitMember(m: Member, path: string, isPage: TypeRef -> bool): (r: Result<Member, RewriteError>)
    ensures m.OtherMember? ==> r == Ok(m)
    ensures r.Ok? ==> r.value.ClassMember? == m.ClassMember? && r.value.NamespaceMember? == m.NamespaceMember?
    ensures r.Ok? && m.ClassMember? ==> r.value.decl.name == m.decl.name && r.value.decl.baseList == m.decl.baseList
    ensures r.Ok? && m.NamespaceMember? ==> r.value.name == m.name && |r.value.members| == |m.members|
    ensures m.ClassMember? ==>
      (r.Ok? <==> VisitClass(m.decl, path, isPage).Ok?) &&
      (r.Ok? ==> r.value == ClassMember(VisitClass(m.decl, path, isPage).value))
    ensures m.NamespaceMember? ==>
      (r.Ok? <==> VisitMembers(m.members, path, isPage).Ok?) &&
      (r.Ok? ==> r.value == NamespaceMember(m.name, VisitMembers(m.members, path, isPage).value))
    decreases m
  {
    match m
    case ClassMember(c) =>
      (match VisitClass(c, path, isPage)
       case Err(e) => Err(e)
       case Ok(c') => Ok(ClassMember(c')))
    case NamespaceMember(name, ms) =>
      (match VisitMembers(ms, path, isPage)
       case Err(e) => Err(e)
       case Ok(ms') => Ok(NamespaceMember(name, ms')))
    case OtherMember(_) => Ok(m)
  }

  /** The base visitor on a member list, in order; the first failure stops it. */
  function VisitMembers(ms: seq<Member>, path: string, isPage: TypeRef -> bool): (r: Result<seq<Member>, RewriteError>)
    ensures r.Ok? <==> forall i :: 0 <= i < |ms| ==> VisitMember(ms[i], path, isPage).Ok?
    ensures r.Ok? ==> (|r.value| == |ms| &&
      forall i :: 0 <= i < |ms| ==> r.value[i] == VisitMember(ms[i], path, isPage).value)
    ensures r.Err? ==> (exists k :: (0 <= k < |ms| && VisitMember(ms[k], path, isPage).Err? &&
      r.error == VisitMember(ms[k], path, isPage).error &&
      forall j :: 0 <= j < k ==> VisitMember(ms[j], path, isPage).Ok?))
    decreases ms
  {
    if ms == [] then Ok([])
    else
      match VisitMember(ms[0], path, isPage)
      case Err(e) => Err(e)
      case Ok(m) =>
        match VisitMembers(ms[1..], path, isPage)
        case Err(e) => Err(e)
        case Ok(rest) => Ok([m] + rest)
  }

  /** `rewriter.Visit(tree.GetRoot())` with the tree's own file path, wrapped
      back into a tree with the same path. It fails exactly when the visitor
      reaches a class without a base list, naming the first such class;
      otherwise only attribute lists change, one list is added per reached
      page class, and the tree's path is the only tag that may be new. */
  function RewriteTree(t: SyntaxTree, isPage: TypeRef -> bool): (r: Result<SyntaxTree, RewriteError>)
    ensures r.Err? <==> MembersNullBase(t.root, isPage).Some?
    ensures r.Err? ==> r.error == NullBaseList(MembersNullBase(t.root, isPage).value)
    ensures r.Ok? ==> r.value.filePath == t.filePath && MembersShape(r.value.root) == MembersShape(t.root)
    ensures r.Ok? ==>
      MembersListCount(r.value.root) == MembersListCount(t.root) + |MembersPages(t.root, isPage)|
    ensures r.Ok? ==>
      TreeTags(r.value) == TreeTags(t) + (if MembersPages(t.root, isPage) == [] then {} else {t.filePath})
  {
    VisitMembersOutcome(t.root, t.filePath, isPage);
    match VisitMembers(t.root, t.filePath, isPage)
    case Err(e) => Err(e)
    case Ok(root) =>
      VisitMembersEffect(t.root, t.filePath, isPage);
      Ok(SyntaxTree(t.filePath, root))
  }

  // ---------------------------------------------------------------------
  // What the visitor reaches. A class with a page base is tagged and not
  // descended into; any other class, and every namespace, is descended into.

  /** The names of the page classes the visitor reaches, in visit order. */
  function ClassPages(c: ClassDecl, isPage: TypeRef -> bool): seq<string>
    decreases c
  {
    match c.baseList
    case None => []
    case Some(bases) => if HasPageBase(bases, isPage) then [c.name] else MembersPages(c.members, isPage)
  }

  function MemberPages(m: Member, isPage: TypeRef -> bool): seq<string>
    decreases m
  {
    match m
    case ClassMember(c) => ClassPages(c, isPage)
    case NamespaceMember(_, ms) => MembersPages(ms, isPage)
    case OtherMember(_) => []
  }

  function MembersPages(ms: seq<Member>, isPage: TypeRef -> bool): seq<string>
    decreases ms
  {
    if ms == [] then [] else MemberPages(ms[0], isPage) + MembersPages(ms[1..], isPage)
  }

  /** The first class the visitor reaches that has no base list, if any. */
  function ClassNullBase(c: ClassDecl, isPage: TypeRef -> bool): Option<string>
    decreases c
  {
    match c.baseList
    case None => Some(c.name)
    case Some(bases) => if HasPageBase(bases, isPage) then None else MembersNullBase(c.members, isPage)
  }

  function MemberNullBase(m: Member, isPage: TypeRef -> bool): Option<string>
    decreases m
  {
    match m
    case ClassMember(c) => ClassNullBase(c, isPage)
    case NamespaceMember(_, ms) => MembersNullBase(ms, isPage)
    case OtherMember(_) => None
  }

  function MembersNullBase(ms: seq<Member>, isPage: TypeRef -> bool): Option<string>
    decreases ms
  {
    if ms == [] then None
    else if MemberNullBase(ms[0], isPage).Some? then MemberNullBase(ms[0], isPage)
    else MembersNullBase(ms[1..], isPage)
  }

  /** The number of attribute lists, at every depth. */
  function ClassListCount(c: ClassDecl): nat
    decreases c
  {
    |c.attributeLists| + MembersListCount(c.members)
  }

  function MemberListCount(m: Member): nat
    decreases m
  {
    match m
    case ClassMember(c) => ClassListCount(c)
    case NamespaceMember(_, ms) => MembersListCount(ms)
    case OtherMember(_) => 0
  }

  function MembersListCount(ms: seq<Member>): nat
    decreases ms
  {
    if ms == [] then 0 else MemberListCount(ms[0]) + MembersListCount(ms[1..])
  }

  /** The visitor fails exactly when it reaches a class without a base list,
      and then it names the first one. */
  lemma {:induction false} VisitClassOutcome(c: ClassDecl, path: string, isPage: TypeRef -> bool)
    ensures VisitClass(c, path, isPage).Err? <==> ClassNullBase(c, isPage).Some?
    ensures VisitClass(c, path, isPage).Err? ==>
      VisitClass(c, path, isPage).error == NullBaseList(ClassNullBase(c, isPage).value)
    decreases c
  {
    if c.baseList.Some? && !HasPageBase(c.baseList.value, isPage) {
      VisitMembersOutcome(c.members, path, isPage);
    }
  }

  lemma {:induction false} VisitMemberOutcome(m: Member, path: string, isPage: TypeRef -> bool)
    ensures VisitMember(m, path, isPage).Err? <==> MemberNullBase(m, isPage).Some?
    ensures VisitMember(m, path, isPage).Err? ==>
      VisitMember(m, path, isPage).error == NullBaseList(MemberNullBase(m, isPage).value)
    decreases m
  {
    match m
    case ClassMember(c) => VisitClassOutcome(c, path, isPage);
    case NamespaceMember(_, ms) => VisitMembersOutcome(ms, path, isPage);
    case OtherMember(_) =>
  }

  lemma {:induction false} VisitMembersOutcome(ms: seq<Member>, path: string, isPage: TypeRef -> bool)
    ensures VisitMembers(ms, path, isPage).Err? <==> MembersNullBase(ms, isPage).Some?
    ensures VisitMembers(ms, path, isPage).Err? ==>
      VisitMembers(ms, path, isPage).error == NullBaseList(MembersNullBase(ms, isPage).value)
    decreases ms
  {
    if ms != [] {
      VisitMemberOutcome(ms[0], path, isPage);
      VisitMembersOutcome(ms[1..], path, isPage);
    }
  }

  // ---------------------------------------------------------------------
  // What the rewrite leaves alone: everything but attribute lists.

  /** A class with every attribute list dropped, at every depth. */
  function ClassShape(c: ClassDecl): ClassDecl
    decreases c
  {
    c.(attributeLists := [], members := MembersShape(c.members))
  }

  function MemberShape(m: Member): Member
    decreases m
  {
    match m
    case ClassMember(c) => ClassMember(ClassShape(c))
    case NamespaceMember(name, ms) => NamespaceMember(name, MembersShape(ms))
    case OtherMember(_) => m
  }

  function MembersShape(ms: seq<Member>): (r: seq<Member>)
    ensures |r| == |ms|
    decreases ms
  {
    if ms == [] then [] else [MemberShape(ms[0])] + MembersShape(ms[1..])
  }

  // ---------------------------------------------------------------------
  // The paths carried by `ViewPath` attributes.

  /** The `Path` a `ViewPath` attribute is constructed with: its one string
      literal argument. Other attributes have none. */
  function ViewPathOf(a: Attribute): Option<string> {
    if IsViewPathAttribute(a) && |a.arguments| == 1 && a.arguments[0].StringLiteral? then
      Some(a.arguments[0].value)
    else
      None
  }

  /** The paths of the `ViewPath` attributes among some attributes, in order. */
  function AttributeListPaths(attributes: seq<Attribute>): seq<string> {
    if attributes == [] then []
    else
      (match ViewPathOf(attributes[0]) case Some(p) => [p] case None => []) + AttributeListPaths(attributes[1..])
  }

  /** The paths of the `ViewPath` attributes of a class's attribute lists, in order. */
  function AttributePaths(lists: seq<AttributeList>): seq<string> {
    if lists == [] then [] else AttributeListPaths(lists[0].attributes) + AttributePaths(lists[1..])
  }

  function AttributeTags(lists: seq<AttributeList>): set<string> {
    set p | p in AttributePaths(lists)
  }

  function ClassTags(c: ClassDecl): set<string>
    decreases c
  {
    AttributeTags(c.attributeLists) + MembersTags(c.members)
  }

  function MemberTags(m: Member): set<string>
    decreases m
  {
    match m
    case ClassMember(c) => ClassTags(c)
    case NamespaceMember(_, ms) => MembersTags(ms)
    case OtherMember(_) => {}
  }

  function MembersTags(ms: seq<Member>): set<string>
    decreases ms
  {
    if ms == [] then {} else MemberTags(ms[0]) + MembersTags(ms[1..])
  }

  function TreeTags(t: SyntaxTree): set<string> {
    MembersTags(t.root)
  }

  /** The added attribute list carries exactly one path, the tree's. */
  lemma ViewPathListPaths(path: string)
    ensures AttributePaths([ViewPathAttributeList(path)]) == [path]
  {
    var added := ViewPathAttributeList(path);
    assert ViewPathOf(added.attributes[0]) == Some(path);
    assert added.attributes[1..] == [];
    assert AttributeListPaths(added.attributes) == [path];
    assert [added][1..] == [];
  }

  lemma {:induction false} AttributePathsAppend(lists: seq<AttributeList>, path: string)
    ensures AttributePaths(lists + [ViewPathAttributeList(path)]) == AttributePaths(lists) + [path]
  {
    var added := ViewPathAttributeList(path);
    if lists == [] {
      assert lists + [added] == [added];
      ViewPathListPaths(path);
    } else {
      var extended := lists + [added];
      assert extended[0] == lists[0] && extended[1..] == lists[1..] + [added];
      var first := AttributeListPaths(lists[0].attributes);
      calc {
        AttributePaths(extended);
        first + AttributePaths(lists[1..] + [added]);
        { AttributePathsAppend(lists[1..], path); }
        first + (AttributePaths(lists[1..]) + [path]);
        (first + AttributePaths(lists[1..])) + [path];
        AttributePaths(lists) + [path];
      }
    }
  }

  lemma AttributeTagsAppend(lists: seq<AttributeList>, path: string)
    ensures AttributeTags(lists + [ViewPathAttributeList(path)]) == AttributeTags(lists) + {path}
  {
    AttributePathsAppend(lists, path);
  }

  /** A class the rewriter accepts keeps its shape, gains one attribute list
      per page class the visitor reaches in it, and the only tag it may gain
      is the tree's path, which it gains when it holds a reached page class. */
  lemma {:induction false} VisitClassEffect(c: ClassDecl, path: string, isPage: TypeRef -> bool)
    requires VisitClass(c, path, isPage).Ok?
    ensures ClassShape(VisitClass(c, path, isPage).value) == ClassShape(c)
    ensures ClassListCount(VisitClass(c, path, isPage).value) == ClassListCount(c) + |ClassPages(c, isPage)|
    ensures ClassTags(VisitClass(c, path, isPage).value) ==
      ClassTags(c) + (if ClassPages(c, isPage) == [] then {} else {path})
    decreases c
  {
    var bases := c.baseList.value;
    if HasPageBase(bases, isPage) {
      AttributeTagsAppend(c.attributeLists, path);
    } else {
      VisitMembersEffect(c.members, path, isPage);
    }
  }

  lemma {:induction false} VisitMemberEffect(m: Member, path: string, isPage: TypeRef -> bool)
    requires VisitMember(m, path, isPage).Ok?
    ensures MemberShape(VisitMember(m, path, isPage).value) == MemberShape(m)
    ensures MemberListCount(VisitMember(m, path, isPage).value) == MemberListCount(m) + |MemberPages(m, isPage)|
    ensures MemberTags(VisitMember(m, path, isPage).value) ==
      MemberTags(m) + (if MemberPages(m, isPage) == [] then {} else {path})
    decreases m
  {
    match m
    case ClassMember(c) => VisitClassEffect(c, path, isPage);
    case NamespaceMember(_, ms) => VisitMembersEffect(ms, path, isPage);
    case OtherMember(_) =>
  }

  lemma {:induction false} VisitMembersEffect(ms: seq<Member>, path: string, isPage: TypeRef -> bool)
    requires VisitMembers(ms, path, isPage).Ok?
    ensures MembersShape(VisitMembers(ms, path, isPage).value) == MembersShape(ms)
    ensures MembersListCount(VisitMembers(ms, path, isPage).value) == MembersListCount(ms) + |MembersPages(ms, isPage)|
    ensures MembersTags(VisitMembers(ms, path, isPage).value) ==
      MembersTags(ms) + (if MembersPages(ms, isPage) == [] then {} else {path})
    decreases ms
  {
    if ms != [] {
      VisitMemberEffect(ms[0], path, isPage);
      VisitMembersEffect(ms[1..], path, isPage);
      var r := VisitMembers(ms, path, isPage).value;
      assert r[1..] == VisitMembers(ms[1..], path, isPage).value;
    }
  }
}
