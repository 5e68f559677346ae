/** Encoding into byte buffers in place, and the records that keep such a buffer. */
module RecordBuffers {
  import opened Bytes
  import opened Elements
  import opened Wire

  function Splice(b: seq<byte>, at: nat, w: seq<byte>): seq<byte>
    requires at + |w| <= |b|
  {
    b[..at] + w + b[at + |w|..]
  }

  lemma SpliceTwice(b: seq<byte>, at: nat, v: seq<byte>, w: seq<byte>)
    requires at + |v| + |w| <= |b|
    ensures |Splice(b, at, v)| == |b| && Splice(Splice(b, at, v), at + |v|, w) == Splice(b, at, v + w)
  {
  }

  /** `w` laid over the buffer from `at` on, as far as the buffer goes. */
  function Overlay(b: seq<byte>, at: nat, w: seq<byte>): (r: seq<byte>)
    requires at <= |b|
    ensures at + |w| <= |b| ==> r == Splice(b, at, w)
  {
    var n := if at + |w| <= |b| then |w| else |b| - at;
    assert n == |w| ==> w[..n] == w;
    Splice(b, at, w[..n])
  }

  /** `copy(buffer[at:], w)`: what does not fit is left out. */
  method CopyPart(buffer: array<byte>, at: nat, w: seq<byte>)
    requires at <= buffer.Length
    modifies buffer
    ensures buffer[..] == Overlay(old(buffer[..]), at, w)
  {
    var n := if at + |w| <= buffer.Length then |w| else buffer.Length - at;
    Copy(buffer, at, w[..n]);
  }

  /** `copy(buffer[at:], w)`, for data that fits. */
  method Copy(buffer: array<byte>, at: nat, w: seq<byte>)
    requires at + |w| <= buffer.Length
    modifies buffer
    ensures buffer[..] == Splice(old(buffer[..]), at, w)
  {
    for k := 0 to |w|
      invariant forall i :: 0 <= i < buffer.Length ==>
                  buffer[i] == if at <= i < at + k then w[i - at] else old(buffer[i])
    {
      buffer[at + k] := w[k];
    }
  }

  /** `binary.BigEndian.PutUint16` and its siblings: the bytes of `n`, most significant first. */
  method PutBigEndian(buffer: array<byte>, at: nat, n: nat, w: nat)
    requires at + w <= buffer.Length
    modifies buffer
    ensures buffer[..] == Splice(old(buffer[..]), at, BigEndian(n, w))
  {
    var left, k := n, w;
    while k > 0
      invariant 0 <= k <= w
      invariant BigEndian(n, w) == BigEndian(left, k) + buffer[at + k..at + w]
      invariant forall i :: 0 <= i < buffer.Length && !(at + k <= i < at + w) ==> buffer[i] == old(buffer[i])
    {
      k := k - 1;
      ghost var tail := buffer[at + k + 1..at + w];
      buffer[at + k] := left % 256;
      assert buffer[at + k..at + w] == [left % 256] + tail;
      left := left / 256;
    }
  }

  /** The types whose bytes are all written or none: writing them past the end of the buffer panics. */
  predicate Rigid(t: DataType) {
    Supported(t) && t != MacAddress && t != Ipv4Address && t != Ipv6Address && t != String
  }

  /** A value of another kind than its type's, or one whose bytes run over the end of the buffer. */
  predicate Unwritable(e: Element, room: int) {
    !HasType(e.value, e.ie.dataType) || (Rigid(e.ie.dataType) && TypeLength(e.ie.dataType) > room)
  }

  /** `encodeInfoElementValueToBuff`: the value goes to its own place in the buffer, or nothing is written. A value
      whose type is wider than the element's length runs on into what follows, as does a long hardware address. */
  method EncodeInfoElementValueToBuff(e: Element, buffer: array<byte>, index: nat) returns (err: bool, panicked: bool)
    modifies buffer
    ensures err <==>
              index + FieldLength(e) > buffer.Length || (HasType(e.value, e.ie.dataType) && Written(e).None?)
    ensures panicked <==> index + FieldLength(e) <= buffer.Length && Unwritable(e, buffer.Length - index)
    ensures buffer[..] ==
            if err || panicked then old(buffer[..]) else Overlay(old(buffer[..]), index, Written(e).value)
  {
    hide BigEndian;
    Widths();
    err, panicked := false, false;
    if index + FieldLength(e) > buffer.Length {
      return true, false;
    }
    if Unwritable(e, buffer.Length - index) {
      return false, true;
    }
    match e.ie.dataType
    case Unsigned8 => Copy(buffer, index, [e.value.n8]);
    case Unsigned16 => PutBigEndian(buffer, index, e.value.n16, 2);
    case Unsigned32 => PutBigEndian(buffer, index, e.value.n32, 4);
    case Unsigned64 => PutBigEndian(buffer, index, e.value.n64, 8);
    case Signed8 => PutBigEndian(buffer, index, ToUnsigned(e.value.s8, 1), 1);
    case Signed16 => PutBigEndian(buffer, index, ToUnsigned(e.value.s16, 2), 2);
    case Signed32 => PutBigEndian(buffer, index, ToUnsigned(e.value.s32, 4), 4);
    case Signed64 => PutBigEndian(buffer, index, ToUnsigned(e.value.s64, 8), 8);
    case Float32 => PutBigEndian(buffer, index, e.value.bits32, 4);
    case Float64 => PutBigEndian(buffer, index, e.value.bits64, 8);
    case Boolean => Copy(buffer, index, [if e.value.flag then 1 else 2]);
    case DateTimeSeconds => PutBigEndian(buffer, index, e.value.n32, 4);
    case DateTimeMilliseconds => PutBigEndian(buffer, index, e.value.n64, 8);
    case MacAddress => CopyPart(buffer, index, e.value.mac);
    case Ipv4Address => err := CopyAddress(buffer, index, To4(e.value.ip));
    case Ipv6Address => err := CopyAddress(buffer, index, To16(e.value.ip));
    case String => err := EncodeString(e, buffer, index);
    case _ => err := true;
  }

  method CopyAddress(buffer: array<byte>, index: nat, ip: Option<seq<byte>>) returns (err: bool)
    requires index <= buffer.Length
    modifies buffer
    ensures err <==> ip.None?
    ensures buffer[..] == if err then old(buffer[..]) else Overlay(old(buffer[..]), index, ip.value)
  {
    err := ip.None?;
    if ip.Some? {
      CopyPart(buffer, index, ip.value);
    }
  }

  /** The length prefix, one byte or a marker and two, then the text. */
  method EncodeString(e: Element, buffer: array<byte>, index: nat) returns (err: bool)
    requires e.ie.dataType == String && e.value.Str? && index + FieldLength(e) <= buffer.Length
    modifies buffer
    ensures err <==> Written(e).None?
    ensures buffer[..] == if err then old(buffer[..]) else Splice(old(buffer[..]), index, Written(e).value)
  {
    hide BigEndian, Splice;
    var v := e.value.text;
    ghost var was := buffer[..];
    err := false;
    if |v| < 255 {
      Copy(buffer, index, [|v|]);
      Copy(buffer, index + 1, v);
      SpliceTwice(was, index, [|v|], v);
    } else if |v| <= 65535 {
      Copy(buffer, index, [255]);
      PutBigEndian(buffer, index + 1, |v|, 2);
      Copy(buffer, index + 3, v);
      SpliceTwice(was, index, [255], BigEndian(|v|, 2));
      SpliceTwice(was, index, [255] + BigEndian(|v|, 2), v);
    } else {
      err := true;
    }
  }

  // ---------- records ----------

  /** A data record or a template record; both keep the elements added so far and a buffer. */
  class Record {
    const isTemplate: bool
    const templateId: u16
    const isDecoding: bool
    /** How many slots were preallocated. */
    const numElements: nat
    var buffer: seq<byte>
    var fieldCount: u16
    var orderedElementList: seq<Option<Element>>
    var len: nat
    var minDataRecLength: u16
    var index: nat
    /** The elements added, and how many of them the buffer of a data record covers. */
    ghost var added: seq<Element>
    ghost var cached: nat

    ghost predicate Slots()
      reads this
    {
      && |orderedElementList| == (if numElements < |added| then |added| else numElements)
      && (forall i :: 0 <= i < |added| ==> orderedElementList[i] == Some(added[i]))
    }

    ghost predicate ValidData()
      reads this
    {
      && !isTemplate && Slots() && |added| <= 0x1_0000 && (!isDecoding ==> AllFit(added))
      && fieldCount == |added| % 0x1_0000 && cached <= |added|
      && len == (if isDecoding then 0 else RecordLength(added))
      && buffer == (if isDecoding then [] else RecordBytes(added[..cached]))
    }

    ghost predicate ValidTemplate()
      reads this
    {
      && isTemplate && Slots() && index == |added| <= numElements && fieldCount == numElements % 0x1_0000
      && buffer == BigEndian(templateId, 2) + BigEndian(fieldCount, 2) + Specifiers(Ies(added))
      && minDataRecLength == MinLength(Ies(added))
    }

    ghost predicate Valid()
      reads this
    {
      if isTemplate then ValidTemplate() else ValidData()
    }

    /** Every preallocated slot is filled. */
    ghost predicate Complete()
      reads this
    {
      Valid() && numElements <= |added|
    }

    /** `NewDataRecord`. */
    constructor Data(id: u16, numElements: nat, isDecoding: bool)
      ensures !isTemplate && templateId == id && this.isDecoding == isDecoding && this.numElements == numElements
      ensures Valid() && added == []
    {
      isTemplate, templateId, this.isDecoding, this.numElements := false, id, isDecoding, numElements;
      buffer, fieldCount, len, minDataRecLength, index := [], 0, 0, 0, 0;
      orderedElementList := seq(numElements, i => None);
      added, cached := [], 0;
    }

    /** `NewTemplateRecord` followed by `PrepareRecord`, which writes the template id and the field count. */
    constructor Template(id: u16, numElements: nat, isDecoding: bool)
      ensures isTemplate && templateId == id && this.isDecoding == isDecoding && this.numElements == numElements
      ensures Valid() && added == []
    {
      isTemplate, templateId, this.isDecoding, this.numElements := true, id, isDecoding, numElements;
      var count: u16 := numElements % 0x1_0000;
      fieldCount, len, minDataRecLength, index := count, 0, 0, 0;
      orderedElementList := seq(numElements, i => None);
      added, cached := [], 0;
      var header := new byte[4](i => 0);
      PutBigEndian(header, 0, id, 2);
      PutBigEndian(header, 2, count, 2);
      buffer := header[..];
    }

    /** `dataRecord.AddInfoElement`: into the next preallocated slot, or appended. */
    method AddData(e: Element)
      requires ValidData() && (!isDecoding ==> FitsSlot(e)) && |added| < 0x1_0000
      modifies this
      ensures ValidData() && added == old(added) + [e]
    {
      hide FitsSlot, RecordBytes;
      RecordLengthAppend(added, [e]);
      assert [e][1..] == [];
      if !isDecoding {
        len := len + FieldLength(e);
      }
      if |orderedElementList| <= fieldCount {
        orderedElementList := orderedElementList + [Some(e)];
      } else {
        orderedElementList := orderedElementList[fieldCount := Some(e)];
      }
      fieldCount := (fieldCount + 1) % 0x1_0000;
      assert (added + [e])[..cached] == added[..cached];
      added := added + [e];
    }

    /** `templateRecord.AddInfoElement`: a field specifier is appended; an element that carries a value is refused. */
    method AddTemplate(e: Element) returns (err: bool)
      requires ValidTemplate() && |added| < numElements
      modifies this
      ensures ValidTemplate() && err == !IsValueEmpty(e.value)
      ensures added == if err then old(added) else old(added) + [e]
    {
      hide BigEndian, MinLength, Specifiers, FieldSpecifier, Ies;
      err := !IsValueEmpty(e.value);
      if !err {
        var ie := e.ie;
        var id := BigEndian(ie.elementId, 2);
        var initialLength := |buffer|;
        buffer := buffer + id + BigEndian(ie.len, 2);
        if ie.enterpriseId != 0 {
          buffer := buffer[initialLength := WithTopBit(buffer[initialLength])] + BigEndian(ie.enterpriseId, 4);
        }
        orderedElementList := orderedElementList[index := Some(e)];
        index := index + 1;
        minDataRecLength := (minDataRecLength + if ie.len == VARIABLE_LENGTH then 1 else ie.len) % 0x1_0000;
        SpecifierAppended(old(buffer), ie);
        Associates(BigEndian(templateId, 2) + BigEndian(fieldCount, 2), Specifiers(Ies(added)), FieldSpecifier(ie));
        TemplateExtends(added, e);
        added := added + [e];
      }
    }

    static lemma SpecifierAppended(b: seq<byte>, ie: InfoElement)
      ensures var whole := b + BigEndian(ie.elementId, 2) + BigEndian(ie.len, 2);
              b + FieldSpecifier(ie) ==
              if ie.enterpriseId == 0 then whole
              else whole[|b| := WithTopBit(whole[|b|])] + BigEndian(ie.enterpriseId, 4)
    {
      hide BigEndian;
    }

    static lemma TemplateExtends(es: seq<Element>, e: Element)
      ensures Specifiers(Ies(es + [e])) == Specifiers(Ies(es)) + FieldSpecifier(e.ie)
      ensures MinLength(Ies(es + [e])) ==
              (MinLength(Ies(es)) + if e.ie.len == VARIABLE_LENGTH then 1 else e.ie.len) % 0x1_0000
    {
      hide FieldSpecifier, Specifiers;
      assert Ies(es + [e]) == Ies(es) + [e.ie];
      SpecifiersAppend(Ies(es), [e.ie]);
      OneSpecifier(e.ie);
      assert (Ies(es) + [e.ie])[..|es|] == Ies(es);
    }

    static lemma OneSpecifier(ie: InfoElement)
      ensures Specifiers([ie]) == FieldSpecifier(ie)
    {
      assert [ie][1..] == [];
    }

    static lemma OneSlot(e: Element)
      requires FitsSlot(e)
      ensures AllFit([e]) && RecordBytes([e]) == Slot(e) && RecordLength([e]) == FieldLength(e)
    {
      assert [e][1..] == [];
    }

    /** Every element is encoded into its own slot of a fresh buffer. */
    method EncodeSlots() returns (b: seq<byte>)
      requires ValidData() && !isDecoding && numElements <= |added|
      ensures b == RecordBytes(added)
    {
      hide FitsSlot, Slot, RecordBytes, AllFit, RecordLength, Splice;
      var slots := new byte[len](i => 0);
      var index := 0;
      StartsEmpty(added, slots[..]);
      for i := 0 to |orderedElementList|
        invariant |orderedElementList| == |added|
                  && index == RecordLength(added[..i]) <= slots.Length == RecordLength(added)
        invariant AllFit(added[..i]) && slots[..] == RecordBytes(added[..i]) + Zeros(slots.Length - index)
      {
        var e := orderedElementList[i].value;
        EachFits(added, i);
        NextSlot(added, i);
        ghost var before := slots[..];
        var err, panicked := EncodeInfoElementValueToBuff(e, slots, index);
        FittingIsWritable(e, slots.Length - index);
        SlotWritten(before, RecordBytes(added[..i]), e, slots[..], err);
        index := index + FieldLength(e);
      }
      assert added[..|added|] == added;
      b := slots[..];
    }

    static lemma FittingIsWritable(e: Element, room: int)
      requires FitsSlot(e) && FieldLength(e) <= room
      ensures !Unwritable(e, room) && HasType(e.value, e.ie.dataType)
    {
      hide BigEndian;
    }

    static lemma StartsEmpty(es: seq<Element>, b: seq<byte>)
      requires forall i :: 0 <= i < |b| ==> b[i] == 0
      ensures AllFit(es[..0]) && RecordLength(es[..0]) == 0 && b == RecordBytes(es[..0]) + Zeros(|b|)
    {
    }

    static lemma EachFits(es: seq<Element>, i: nat)
      requires AllFit(es) && i < |es|
      ensures FitsSlot(es[i])
    {
    }

    /** `dataRecord.GetBuffer`: the cached buffer if it has the right length, a slots encoding otherwise. Whatever was
        added and read before, the result is the concatenation of the element encodings. */
    method GetDataBuffer() returns (b: seq<byte>)
      requires ValidData() && numElements <= |added|
      modifies this`buffer, this`cached
      ensures ValidData() && b == buffer && b == if isDecoding then [] else RecordBytes(added)
    {
      hide FitsSlot, Slot, RecordBytes, RecordLength;
      assert added[..|added|] == added;
      if |buffer| == len || isDecoding {
        if !isDecoding {
          SameLengthSameBytes(added, cached);
        }
        return buffer;
      }
      buffer := EncodeSlots();
      cached := |added|;
      b := buffer;
    }

    static lemma SameLengthSameBytes(es: seq<Element>, k: nat)
      requires AllFit(es) && k <= |es| && RecordLength(es[..k]) == RecordLength(es)
      ensures RecordBytes(es[..k]) == RecordBytes(es)
    {
      hide FitsSlot;
      assert es == es[..k] + es[k..];
      RecordBytesAppend(es[..k], es[k..]);
      RecordLengthAppend(es[..k], es[k..]);
    }

    static lemma NextSlot(es: seq<Element>, i: nat)
      requires AllFit(es) && i < |es|
      ensures AllFit(es[..i + 1]) && RecordBytes(es[..i + 1]) == RecordBytes(es[..i]) + Slot(es[i])
      ensures RecordLength(es[..i]) + FieldLength(es[i]) == RecordLength(es[..i + 1]) <= RecordLength(es)
    {
      hide FitsSlot, Slot, RecordBytes, RecordLength, FieldLength;
      var front, e, back := es[..i], es[i], es[i + 1..];
      assert es[..i + 1] == front + [e] && es == (front + [e]) + back;
      hide AllFit;
      SlotBetween(front, e, back);
    }

    static lemma SlotBetween(front: seq<Element>, e: Element, back: seq<Element>)
      requires AllFit(front) && FitsSlot(e)
      ensures AllFit(front + [e]) && RecordBytes(front + [e]) == RecordBytes(front) + Slot(e)
      ensures RecordLength(front) + FieldLength(e) == RecordLength(front + [e]) <= RecordLength(front + [e] + back)
    {
      hide FitsSlot, Slot, RecordBytes, RecordLength, FieldLength, AllFit;
      OneSlot(e);
      RecordBytesAppend(front, [e]);
      RecordLengthAppend(front, [e]);
      RecordLengthAppend(front + [e], back);
    }

    /** Encoding an element into zeros leaves its slot followed by zeros. */
    static lemma SlotWritten(before: seq<byte>, done: seq<byte>, e: Element, after: seq<byte>, err: bool)
      requires FitsSlot(e) && |done| + FieldLength(e) <= |before| && before == done + Zeros(|before| - |done|)
      requires err <==> Written(e).None?
      requires after == if err then before else Splice(before, |done|, Written(e).value)
      ensures after == done + Slot(e) + Zeros(|before| - |done| - FieldLength(e))
    {
      hide Written;
    }
  }
}
