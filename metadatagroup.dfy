/** ugh.dl.MetadataGroup: one instance of a metadata group type, holding a
    metadata list and a person list that its constructor pre-fills from the
    group type's member types. */
module MetadataGroups {
  import opened Records
  import opened Lists

  /** The exception a group construction with a null type throws. */
  datatype MetadataTypeNotAllowed = MetadataTypeNotAllowed(message: string)

  const NullTypeMessage: string := "MetadataType must not be null at Metadata creation!"

  /** Whether a member type is person-valued. */
  const IsPersonType: MetadataType -> bool := (t: MetadataType) => t.isPerson

  /** Whether a metadata element's type is called `n`. */
  function MetadataNamed(n: string): Metadata -> bool
  {
    (md: Metadata) => md.mdType.name == n
  }

  /** Whether a person's type is called `n`. */
  function PersonNamed(n: string): Person -> bool
  {
    (p: Person) => p.mdType.name == n
  }

  /** A person of type `t` whose role has been set to the type's name. */
  function PersonWithRole(t: MetadataType): Person
  {
    NewPerson(t).(role := Some(t.name))
  }

  /** The metadata the constructor creates for the member types `ts`. */
  function MetadataFor(ts: seq<MetadataType>): seq<Metadata>
  {
    if ts == [] then []
    else MetadataFor(ts[..|ts| - 1]) + (if ts[|ts| - 1].isPerson then [] else [NewMetadata(ts[|ts| - 1])])
  }

  /** The persons the constructor creates for the member types `ts`. */
  function PersonsFor(ts: seq<MetadataType>): seq<Person>
  {
    if ts == [] then []
    else PersonsFor(ts[..|ts| - 1]) + (if ts[|ts| - 1].isPerson then [PersonWithRole(ts[|ts| - 1])] else [])
  }

  /** Java's List.hashCode fold: start at 1, then multiply by 31 and add the next hash. */
  function Fold31(hs: seq<int>): int
  {
    if hs == [] then 1 else 31 * Fold31(hs[..|hs| - 1]) + hs[|hs| - 1]
  }

  /** The fold of four hashes, step by step as a hashCode method computes it. */
  lemma Fold31Four(a: int, b: int, c: int, d: int)
    ensures Fold31([a, b, c, d]) == 31 * (31 * (31 * (31 * 1 + a) + b) + c) + d
  {
    assert [a][..0] == [];
    assert Fold31([a]) == 31 * 1 + a;
    assert [a, b][..1] == [a];
    assert Fold31([a, b]) == 31 * Fold31([a]) + b;
    assert [a, b, c][..2] == [a, b];
    assert Fold31([a, b, c]) == 31 * Fold31([a, b]) + c;
    assert [a, b, c, d][..3] == [a, b, c];
  }

  /** The hash of a possibly-null reference: 0 for null. */
  function OptionHash<T>(o: Option<T>, hash: T -> int): int
  {
    if o.None? then 0 else hash(o.value)
  }

  /** The hash of a list, from the hashes of its elements. */
  function ListHash<T>(s: seq<T>, hash: T -> int): int
  {
    Fold31(seq(|s|, i requires 0 <= i < |s| => hash(s[i])))
  }

  /** The hash of a group with these fields: the prime-31 fold of the field hashes. */
  function GroupHash(
    t: Option<MetadataGroupType>, ms: seq<Metadata>, ps: seq<Person>, d: Option<DocStruct>,
    typeHash: MetadataGroupType -> int, metadataHash: Metadata -> int,
    personHash: Person -> int, docStructHash: DocStruct -> int): int
  {
    Fold31([OptionHash(t, typeHash), ListHash(ms, metadataHash), ListHash(ps, personHash),
            OptionHash(d, docStructHash)])
  }

  class MetadataGroup {
    var mdType: Option<MetadataGroupType>
    var myDocStruct: Option<DocStruct>
    var metadataList: seq<Metadata>
    var personList: seq<Person>

    /** Builds a group of the given (non-null) type: walks the member types in schema
        order and creates a person for each person-valued one, a metadata element for
        each other one. */
    constructor (theType: MetadataGroupType)
      ensures mdType == Some(theType) && myDocStruct == None
      ensures metadataList == MetadataFor(theType.metadataTypeList)
      ensures personList == PersonsFor(theType.metadataTypeList)
    {
      var ts := theType.metadataTypeList;
      var mds: seq<Metadata> := [];
      var ps: seq<Person> := [];
      for i := 0 to |ts|
        invariant mds == MetadataFor(ts[..i])
        invariant ps == PersonsFor(ts[..i])
      {
        assert ts[..i + 1][..i] == ts[..i];
        var mdt := ts[i];
        if mdt.isPerson {
          var p := NewPerson(mdt);
          p := p.(role := Some(mdt.name));
          ps := ps + [p];
        } else {
          var md := NewMetadata(mdt);
          mds := mds + [md];
        }
      }
      assert ts[..|ts|] == ts;
      mdType := Some(theType);
      myDocStruct := None;
      metadataList := mds;
      personList := ps;
    }

    /** The constructor with its null check: a null type throws and no group is made. */
    static method Create(theType: Option<MetadataGroupType>)
      returns (r: Result<MetadataGroup, MetadataTypeNotAllowed>)
      ensures r.Failure? <==> theType.None?
      ensures r.Failure? ==> r.error == MetadataTypeNotAllowed(NullTypeMessage)
      ensures r.Success? ==>
        && fresh(r.value)
        && r.value.mdType == theType
        && r.value.myDocStruct == None
        && r.value.metadataList == MetadataFor(theType.value.metadataTypeList)
        && r.value.personList == PersonsFor(theType.value.metadataTypeList)
    {
      if theType.None? {
        return Failure(MetadataTypeNotAllowed(NullTypeMessage));
      }
      var g := new MetadataGroup(theType.value);
      r := Success(g);
    }

    /** Sets the document structure the group belongs to. */
    method SetDocStruct(inDoc: Option<DocStruct>)
      modifies this`myDocStruct
      ensures myDocStruct == inDoc
      ensures mdType == old(mdType)
      ensures metadataList == old(metadataList) && personList == old(personList)
    {
      myDocStruct := inDoc;
    }

    /** Replaces the type; the lists are neither touched nor re-validated. Always succeeds. */
    method SetType(inType: Option<MetadataGroupType>) returns (ok: bool)
      modifies this`mdType
      ensures ok
      ensures mdType == inType
      ensures myDocStruct == old(myDocStruct)
      ensures metadataList == old(metadataList) && personList == old(personList)
    {
      mdType := inType;
      ok := true;
    }

    /** Appends a metadata element, with no check against the group type. */
    method AddMetadata(metadata: Metadata)
      modifies this`metadataList
      ensures metadataList == old(metadataList) + [metadata]
      ensures personList == old(personList)
      ensures mdType == old(mdType) && myDocStruct == old(myDocStruct)
    {
      metadataList := metadataList + [metadata];
    }

    /** Appends a person, with no check against the group type. */
    method AddPerson(person: Person)
      modifies this`personList
      ensures personList == old(personList) + [person]
      ensures metadataList == old(metadataList)
      ensures mdType == old(mdType) && myDocStruct == old(myDocStruct)
    {
      personList := personList + [person];
    }

    /** The metadata elements whose type is called `theType`, in list order. */
    method GetMetadataByType(theType: string) returns (returnList: seq<Metadata>)
      ensures returnList == Filter(metadataList, MetadataNamed(theType))
      ensures forall md :: md in returnList <==> md in metadataList && md.mdType.name == theType
      ensures IsSubsequence(returnList, metadataList)
      ensures returnList == [] <==> forall i :: 0 <= i < |metadataList| ==> metadataList[i].mdType.name != theType
    {
      returnList := [];
      for i := 0 to |metadataList|
        invariant returnList == Filter(metadataList[..i], MetadataNamed(theType))
      {
        assert metadataList[..i + 1][..i] == metadataList[..i];
        var md := metadataList[i];
        if md.mdType.name == theType {
          returnList := returnList + [md];
        }
      }
      assert metadataList[..|metadataList|] == metadataList;
      forall md ensures md in returnList <==> md in metadataList && md.mdType.name == theType {
        FilterMembership(metadataList, MetadataNamed(theType), md);
      }
      FilterIsSubsequence(metadataList, MetadataNamed(theType));
      FilterEmpty(metadataList, MetadataNamed(theType));
    }

    /** The persons whose type is called `theType`, in list order. */
    method GetPersonByType(theType: string) returns (returnList: seq<Person>)
      ensures returnList == Filter(personList, PersonNamed(theType))
      ensures forall p :: p in returnList <==> p in personList && p.mdType.name == theType
      ensures IsSubsequence(returnList, personList)
      ensures returnList == [] <==> forall i :: 0 <= i < |personList| ==> personList[i].mdType.name != theType
    {
      returnList := [];
      for i := 0 to |personList|
        invariant returnList == Filter(personList[..i], PersonNamed(theType))
      {
        assert personList[..i + 1][..i] == personList[..i];
        var p := personList[i];
        if p.mdType.name == theType {
          returnList := returnList + [p];
        }
      }
      assert personList[..|personList|] == personList;
      forall p ensures p in returnList <==> p in personList && p.mdType.name == theType {
        FilterMembership(personList, PersonNamed(theType), p);
      }
      FilterIsSubsequence(personList, PersonNamed(theType));
      FilterEmpty(personList, PersonNamed(theType));
    }

    /** The field hashes folded with the prime 31, a null field counting as 0. The hash
        functions of the field types are parameters. */
    method HashCode(
      typeHash: MetadataGroupType -> int, metadataHash: Metadata -> int,
      personHash: Person -> int, docStructHash: DocStruct -> int)
      returns (result: int)
      ensures result == GroupHash(mdType, metadataList, personList, myDocStruct,
                                  typeHash, metadataHash, personHash, docStructHash)
    {
      var prime := 31;
      result := 1;
      result := prime * result + (if mdType.None? then 0 else typeHash(mdType.value));
      result := prime * result + ListHash(metadataList, metadataHash);
      result := prime * result + ListHash(personList, personHash);
      result := prime * result + (if myDocStruct.None? then 0 else docStructHash(myDocStruct.value));
      Fold31Four(OptionHash(mdType, typeHash), ListHash(metadataList, metadataHash),
                 ListHash(personList, personHash), OptionHash(myDocStruct, docStructHash));
    }

    /** Java equality: the same object, or another MetadataGroup whose four fields are
        pairwise equal (null equal only to null). */
    function Equals(obj: object?): (r: bool)
      reads this, obj
      ensures r <==>
        && obj != null
        && obj is MetadataGroup
        && SameFields(obj as MetadataGroup)
    {
      if this == obj then true
      else if obj == null then false
      else if !(obj is MetadataGroup) then false
      else
        var other := obj as MetadataGroup;
        && (if mdType.None? then other.mdType.None? else mdType == other.mdType)
        && metadataList == other.metadataList
        && personList == other.personList
        && (if myDocStruct.None? then other.myDocStruct.None? else myDocStruct == other.myDocStruct)
    }

    /** The four fields of `this` and `other` are pairwise equal. */
    ghost predicate SameFields(other: MetadataGroup)
      reads this, other
    {
      && mdType == other.mdType
      && metadataList == other.metadataList
      && personList == other.personList
      && myDocStruct == other.myDocStruct
    }
  }

  // ---------------------------------------------------------------------------
  // Construction from the schema
  // ---------------------------------------------------------------------------

  /** Every member type yields exactly one element: the two lists together are as long as the schema. */
  lemma {:induction false} PartitionSizes(ts: seq<MetadataType>)
    ensures |MetadataFor(ts)| + |PersonsFor(ts)| == |ts|
  {
    MetadataForSchemaOrder(ts);
    PersonsForSchemaOrder(ts);
    FilterPartitionSize(ts, IsPersonType);
  }

  /** The metadata list holds one fresh element per non-person member type, in schema order. */
  lemma {:induction false} MetadataForSchemaOrder(ts: seq<MetadataType>)
    ensures |MetadataFor(ts)| == |Filter(ts, Negate(IsPersonType))|
    ensures forall i :: 0 <= i < |MetadataFor(ts)| ==>
      MetadataFor(ts)[i] == NewMetadata(Filter(ts, Negate(IsPersonType))[i])
  {
    if ts != [] {
      MetadataForSchemaOrder(ts[..|ts| - 1]);
    }
  }

  /** The person list holds one person per person-valued member type, in schema order,
      each with its role set to its type's name. */
  lemma {:induction false} PersonsForSchemaOrder(ts: seq<MetadataType>)
    ensures |PersonsFor(ts)| == |Filter(ts, IsPersonType)|
    ensures forall i :: 0 <= i < |PersonsFor(ts)| ==>
      && PersonsFor(ts)[i].mdType == Filter(ts, IsPersonType)[i]
      && PersonsFor(ts)[i].role == Some(Filter(ts, IsPersonType)[i].name)
  {
    if ts != [] {
      PersonsForSchemaOrder(ts[..|ts| - 1]);
    }
  }

  /** Each person made by the constructor has a person-valued member type of the schema
      and a role equal to that type's name; each metadata element a non-person one. */
  lemma {:induction false} ConstructedElementsMatchSchema(ts: seq<MetadataType>)
    ensures forall p :: p in PersonsFor(ts) ==> p.mdType in ts && p.mdType.isPerson && p.role == Some(p.mdType.name)
    ensures forall md :: md in MetadataFor(ts) ==> md.mdType in ts && !md.mdType.isPerson && md.value == None
  {
    if ts != [] {
      var t := ts[..|ts| - 1];
      ConstructedElementsMatchSchema(t);
      assert forall x :: x in t ==> x in ts;
    }
  }

  // ---------------------------------------------------------------------------
  // Lookup, append and hashing
  // ---------------------------------------------------------------------------

  /** After appending a metadata element, a lookup finds what it found before, plus the new
      element at the end if its type has the name looked for. */
  lemma LookupAfterAddMetadata(ms: seq<Metadata>, md: Metadata, n: string)
    ensures Filter(ms + [md], MetadataNamed(n)) ==
      Filter(ms, MetadataNamed(n)) + (if md.mdType.name == n then [md] else [])
  {
    FilterSnoc(ms, md, MetadataNamed(n));
  }

  /** After appending a person, a lookup finds what it found before, plus the new person
      at the end if its type has the name looked for. */
  lemma LookupAfterAddPerson(ps: seq<Person>, p: Person, n: string)
    ensures Filter(ps + [p], PersonNamed(n)) ==
      Filter(ps, PersonNamed(n)) + (if p.mdType.name == n then [p] else [])
  {
    FilterSnoc(ps, p, PersonNamed(n));
  }

  /** A lookup keeps every copy of a matching element and nothing else. */
  lemma LookupCounts(ms: seq<Metadata>, n: string, md: Metadata)
    ensures multiset(Filter(ms, MetadataNamed(n)))[md] == if md.mdType.name == n then multiset(ms)[md] else 0
  {
    FilterMultiset(ms, MetadataNamed(n), md);
  }

  /** The group hash in closed form: 31^4 plus each field hash weighted by a power of 31. */
  lemma GroupHashClosedForm(
    t: Option<MetadataGroupType>, ms: seq<Metadata>, ps: seq<Person>, d: Option<DocStruct>,
    typeHash: MetadataGroupType -> int, metadataHash: Metadata -> int,
    personHash: Person -> int, docStructHash: DocStruct -> int)
    ensures GroupHash(t, ms, ps, d, typeHash, metadataHash, personHash, docStructHash) ==
      923521 + 29791 * OptionHash(t, typeHash) + 961 * ListHash(ms, metadataHash)
      + 31 * ListHash(ps, personHash) + OptionHash(d, docStructHash)
  {
    Fold31Four(OptionHash(t, typeHash), ListHash(ms, metadataHash), ListHash(ps, personHash),
               OptionHash(d, docStructHash));
  }

  /** Java equality is reflexive and symmetric on groups. */
  lemma EqualsReflexiveSymmetric(a: MetadataGroup, b: MetadataGroup)
    ensures a.Equals(a)
    ensures a.Equals(b) <==> b.Equals(a)
    ensures !a.Equals(null)
  {
  }

  /** Equal groups have equal hash codes, whatever the hash functions of the field types. */
  lemma EqualsImpliesEqualHash(
    a: MetadataGroup, b: MetadataGroup,
    typeHash: MetadataGroupType -> int, metadataHash: Metadata -> int,
    personHash: Person -> int, docStructHash: DocStruct -> int)
    requires a.Equals(b)
    ensures GroupHash(a.mdType, a.metadataList, a.personList, a.myDocStruct,
                      typeHash, metadataHash, personHash, docStructHash)
         == GroupHash(b.mdType, b.metadataList, b.personList, b.myDocStruct,
                      typeHash, metadataHash, personHash, docStructHash)
  {
  }
}
