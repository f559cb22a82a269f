/** The loader: objects that fill their fields while they step through the data. */
module GgmlLoader {
  import opened Results
  import opened Bytes
  import opened ByteReading
  import opened SignedWords
  import opened GgmlFile
  import opened GgmlSteps

  class Hyperparameters {
    var nVocab: nat
    var nEmbd: nat
    var nMult: nat
    var nHead: nat
    var nLayer: nat
    var nRot: nat
    var nFf: nat
    var ftype: nat

    constructor ()
      ensures nFf == 0
    {
      nVocab, nEmbd, nMult, nHead, nLayer, nRot, nFf, ftype := 0, 0, 0, 0, 0, 0, 0, 0;
    }

    function Contents(): Hyper
      reads this
    {
      Hyper(nVocab, nEmbd, nMult, nHead, nLayer, nRot, ftype)
    }

    method Load(data: seq<Byte>, offset: nat) returns (r: Result<nat>)
      modifies this
      ensures nFf == old(nFf)
      ensures r.Ok? ==> r.value == 28 && ReadHyper(data, offset) == Ok(Contents())
      ensures r.Err? ==> ReadHyper(data, offset) == Err(r.error)
    {
      var ns :- ReadLes(data, offset, 4, 7);
      nVocab, nEmbd, nMult, nHead, nLayer, nRot := ns[0], ns[1], ns[2], ns[3], ns[4], ns[5];
      if !IsFtype(ns[6]) {
        return Err("invalid ftype");
      }
      ftype := ns[6];
      r := Ok(28);
    }

    method SetNFf(tensors: seq<FileTensor>, tensorMap: map<seq<Byte>, nat>, ghost infos: seq<Info>) returns (r: Result<()>)
      requires Matches(tensors, infos) && tensorMap == NameMap(infos)
      modifies this`nFf
      ensures r.Ok? ==> FfSize(infos) == Ok(nFf)
      ensures r.Err? ==> FfSize(infos) == Err(r.error)
    {
      NameMapPlaces(infos, FEED_FORWARD);
      if FEED_FORWARD !in tensorMap {
        return Err("missing layer 0 FF tensor");
      }
      var tensor := tensors[tensorMap[FEED_FORWARD]];
      assert infos[tensorMap[FEED_FORWARD]].dims == tensor.dims;
      if |tensor.dims| < 2 {
        return Err("IndexError");
      }
      nFf := tensor.dims[1];
      r := Ok(());
    }
  }

  class Vocab {
    const loadScores: bool
    var items: seq<Item>

    constructor (loadScores: bool)
      ensures this.loadScores == loadScores && items == []
    {
      this.loadScores := loadScores;
      items := [];
    }

    method Load(data: seq<Byte>, offset: nat, nVocab: nat) returns (r: Result<nat>)
      requires items == []
      modifies this
      ensures r.Ok? ==> ReadItems(data, offset, loadScores, nVocab) == Ok((items, offset + r.value))
      ensures r.Err? ==> ReadItems(data, offset, loadScores, nVocab) == Err(r.error)
    {
      var at := offset;
      var i := 0;
      while i < nVocab
        invariant 0 <= i <= nVocab && at >= offset
        invariant ReadItems(data, offset, loadScores, i) == Ok((items, at))
      {
        var item := LoadItem(data, at);
        if item.Err? {
          ReadItemsFails(data, offset, loadScores, i + 1, nVocab);
          return Err(item.error);
        }
        items := items + [item.value.0];
        at := item.value.1;
        i := i + 1;
      }
      r := Ok(at - offset);
    }

    /** The body of the loop: one item, and the offset after it. */
    method LoadItem(data: seq<Byte>, offset: nat) returns (r: Result<(Item, nat)>)
      ensures r == ReadItem(data, offset, loadScores)
    {
      var len :- ReadLe(data, offset, 4);
      if len >= 4096 {
        return Err("absurd vocab item length");
      }
      var at := offset + 4;
      var text := Slice(data, at, at + len);
      at := at + len;
      var score := 0;
      if loadScores {
        score :- ReadLe(data, at, 4);
        at := at + 4;
      }
      r := Ok((Item(text, score), at));
    }
  }

  /** From `offset` to the end of the data; adding it to `offset` leads there. */
  function Advance(offset: nat, at: nat, length: int): (r: int)
    ensures Wrap64(offset + r) == Wrap64(at + length)
  {
    WrapStep(offset, Wrap64(at + length));
    WrapTwice(at + length);
    Wrap64(Wrap64(at + length) - offset)
  }

  class FileTensor {
    const usePadding: bool
    var name: seq<Byte>
    var dims: seq<nat>
    var dtype: nat
    var startOffset: nat
    var lenBytes: int

    constructor (usePadding: bool)
      ensures this.usePadding == usePadding
    {
      this.usePadding := usePadding;
      name, dims, dtype, startOffset, lenBytes := [], [], 0, 0, 0;
    }

    function Contents(): Info
      reads this
    {
      Info(name, dims, dtype, startOffset, lenBytes)
    }

    method Load(data: seq<Byte>, offset: nat) returns (r: Result<int>)
      modifies this
      ensures r.Ok? ==> ReadTensor(data, offset, usePadding) == Ok(Contents()) && Wrap64(offset + r.value) == End(Contents())
      ensures r.Err? ==> ReadTensor(data, offset, usePadding) == Err(r.error)
    {
      var prefix :- LoadPrefix(data, offset);
      var (nDims, nameLen, kind) := prefix;
      var at := offset + 12;
      dtype := kind;
      dims :- ReadLes(data, at, 4, nDims);
      at := at + 4 * nDims;
      name := Slice(data, at, at + nameLen);
      at := at + nameLen;
      TensorIs(data, offset, usePadding, nDims, nameLen, kind, dims);
      var pad := if usePadding then Padded(at) - at else 0;
      at := at + pad;
      startOffset := at;
      lenBytes := SizeOf(dims, dtype);
      assert Contents() == Info(name, dims, kind, at, SizeOf(dims, kind));
      r := Ok(Advance(offset, at, lenBytes));
    }

    /** The numbers before the dimensions, checked. */
    method LoadPrefix(data: seq<Byte>, offset: nat) returns (r: Result<(nat, nat, nat)>)
      ensures r == ReadPrefix(data, offset)
    {
      var ns :- ReadLes(data, offset, 4, 3);
      if ns[0] > 4 {
        return Err("invalid tensor dimensions");
      }
      if ns[1] >= 4096 {
        return Err("absurd tensor name length");
      }
      if QuantSize(ns[2]).None? {
        return Err("unknown tensor type");
      }
      r := Ok((ns[0], ns[1], ns[2]));
    }
  }

  /** The tensors hold these contents. */
  ghost predicate Matches(tensors: seq<FileTensor>, infos: seq<Info>)
    reads tensors
  {
    |tensors| == |infos| && forall i :: 0 <= i < |tensors| ==> tensors[i].Contents() == infos[i]
  }

  lemma {:induction false} NameMapSnoc(ts: seq<Info>, t: Info)
    ensures NameMap(ts + [t]) == NameMap(ts)[t.name := |ts|]
  {
    assert (ts + [t])[..|ts|] == ts;
  }

  lemma {:induction false} AfterStart(data: seq<Byte>, offset: nat, s: Start, infos: seq<Info>, end: nat)
    requires ReadStart(data, offset) == Ok(s)
    requires ReadTensors(data, s.tensorsAt, s.header.format == GGJT) == Done((infos, end))
    ensures ReadModel(data, offset) == Modelled(s, infos, end)
  {
  }

  class GGMLModel {
    var fileFormat: Format
    var formatVersion: nat
    var hyperparameters: Hyperparameters?
    var vocab: Vocab?
    var tensorMap: map<seq<Byte>, nat>
    var tensors: seq<FileTensor>

    constructor ()
      ensures hyperparameters == null && vocab == null && tensors == []
    {
      fileFormat, formatVersion := GGML, 0;
      hyperparameters, vocab, tensorMap, tensors := null, null, map[], [];
    }

    method ValidateHeader(data: seq<Byte>, offset: nat) returns (r: Result<nat>)
      modifies this`fileFormat, this`formatVersion
      ensures r.Ok? ==> ReadHeader(data, offset) == Ok((Header(fileFormat, formatVersion), r.value))
      ensures r.Err? ==> ReadHeader(data, offset) == Err(r.error)
    {
      if HasAt(data, offset, MAGIC_GGUF) {
        return Err("already GGUF");
      }
      if HasAt(data, offset, MAGIC_GGML) {
        fileFormat, formatVersion := GGML, 1;
        return Ok(4);
      }
      var version :- ReadLe(data, offset + 4, 4);
      if HasAt(data, offset, MAGIC_GGMF) {
        if version != 1 {
          return Err("unexpected version");
        }
        fileFormat, formatVersion := GGMF, version;
        return Ok(8);
      }
      if HasAt(data, offset, MAGIC_GGJT) {
        if version < 1 || version > 3 {
          return Err("unexpected version");
        }
        fileFormat, formatVersion := GGJT, version;
        return Ok(8);
      }
      r := Err("unexpected magic");
    }

    method ValidateConversion(ftype: nat) returns (r: Result<()>)
      ensures r.Ok? <==> Convertible(Header(fileFormat, formatVersion), ftype)
      ensures r.Err? ==> r.error == "not eligible for conversion"
    {
      var bad := false;
      if fileFormat != GGJT || formatVersion < 2 {
        bad := ftype !in {0, 1};
      } else if fileFormat == GGJT && formatVersion == 2 {
        bad := ftype in {2, 3, 4, 7};
      }
      r := if bad then Err("not eligible for conversion") else Ok(());
    }

    /** What has been loaded. */
    ghost predicate Holds(m: Model)
      reads this, hyperparameters, vocab, tensors
    {
      && hyperparameters != null && vocab != null
      && m.header == Header(fileFormat, formatVersion)
      && m.hyper == hyperparameters.Contents() && m.nFf == hyperparameters.nFf
      && m.items == vocab.items
      && Matches(tensors, m.tensors) && tensorMap == NameMap(m.tensors)
    }

    method LoadTensors(data: seq<Byte>, offset: nat)
      returns (loaded: seq<FileTensor>, places: map<seq<Byte>, nat>, r: Outcome<nat>, ghost infos: seq<Info>)
      ensures forall t :: t in loaded ==> fresh(t)
      ensures Matches(loaded, infos) && places == NameMap(infos)
      ensures r.Done? ==> ReadTensors(data, offset, fileFormat == GGJT) == Done((infos, r.value))
      ensures r.Raised? ==> ReadTensors(data, offset, fileFormat == GGJT) == Raised(r.error)
      ensures r.WentBack? ==> ReadTensors(data, offset, fileFormat == GGJT) == WentBack(r.at)
    {
      loaded, places, infos := [], map[], [];
      var at, padding := offset, fileFormat == GGJT;
      while at < |data|
        invariant forall t :: t in loaded ==> fresh(t)
        invariant Matches(loaded, infos) && places == NameMap(infos)
        invariant Steps(data, offset, padding, infos, at)
        decreases if at < |data| then |data| - at else 0
      {
        var tensor, next, info := LoadTensor(data, at, padding, offset, infos);
        if !next.Done? {
          r := next;
          return;
        }
        at := next.value;
        NameMapSnoc(infos, info);
        places := places[tensor.name := |loaded|];
        loaded := loaded + [tensor];
        infos := infos + [info];
      }
      StepsDone(data, offset, padding, infos, at);
      r := Done(at);
    }

    /** The next tensor and where it ends. Where 64-bit arithmetic leads to an earlier offset the original goes on there; here loading stops and says so. */
    method LoadTensor(data: seq<Byte>, at: nat, padding: bool, ghost offset: nat, ghost infos: seq<Info>)
      returns (tensor: FileTensor, next: Outcome<nat>, ghost info: Info)
      requires at < |data| && Steps(data, offset, padding, infos, at)
      ensures fresh(tensor) && tensor.Contents() == info
      ensures next.Done? ==> next.value > at && Steps(data, offset, padding, infos + [info], next.value)
      ensures next.Raised? ==> ReadTensors(data, offset, padding) == Raised(next.error)
      ensures next.WentBack? ==> ReadTensors(data, offset, padding) == WentBack(next.at)
    {
      tensor := new FileTensor(padding);
      var advance := tensor.Load(data, at);
      info := tensor.Contents();
      StepsNext(data, offset, padding, infos, at);
      if advance.Err? {
        next := Raised(advance.error);
      } else {
        var end := Wrap64(at + advance.value);
        next := if end <= at then WentBack(end) else Done(end);
      }
    }

    /** Everything before the tensors. */
    method LoadStart(data: seq<Byte>, offset: nat) returns (hp: Hyperparameters, words: Vocab, r: Result<nat>, ghost s: Start)
      modifies this`fileFormat, this`formatVersion
      ensures fresh(hp) && fresh(words)
      ensures r.Ok? ==>
                && ReadStart(data, offset) == Ok(s)
                && s.header == Header(fileFormat, formatVersion) && s.hyper == hp.Contents()
                && s.items == words.items && s.tensorsAt == r.value
      ensures r.Err? ==> ReadStart(data, offset) == Err(r.error)
    {
      hp := new Hyperparameters();
      words := new Vocab(false);
      s := Start(Header(GGML, 0), hp.Contents(), [], 0, 0, 0);
      var headerSize := ValidateHeader(data, offset);
      if headerSize.Err? {
        r := headerSize;
        return;
      }
      var at := offset + headerSize.value;
      var hyperSize := hp.Load(data, at);
      if hyperSize.Err? {
        r := hyperSize;
        return;
      }
      at := at + hyperSize.value;
      var valid := ValidateConversion(hp.ftype);
      if valid.Err? {
        r := Err(valid.error);
        return;
      }
      words := new Vocab(fileFormat != GGML);
      var vocabSize := words.Load(data, at, hp.nVocab);
      r := if vocabSize.Err? then vocabSize else Ok(at + vocabSize.value);
      s := Start(Header(fileFormat, formatVersion), hp.Contents(), words.items, offset + headerSize.value, at, at + (if r.Ok? then vocabSize.value else 0));
    }

    /** The fields are set, and the size that depends on a tensor is looked up. */
    method Keep(hp: Hyperparameters, words: Vocab, loaded: seq<FileTensor>, places: map<seq<Byte>, nat>, end: nat,
                ghost s: Start, ghost infos: seq<Info>)
      returns (r: Outcome<nat>)
      requires s.header == Header(fileFormat, formatVersion) && s.hyper == hp.Contents() && s.items == words.items
      requires Matches(loaded, infos) && places == NameMap(infos)
      modifies this, hp`nFf
      ensures r.Done? ==>
                && Modelled(s, infos, end).Done?
                && Holds(Modelled(s, infos, end).value.0) && r.value == Modelled(s, infos, end).value.1
      ensures r.Raised? ==> Modelled(s, infos, end) == Raised(r.error)
      ensures !r.WentBack?
    {
      var sized := hp.SetNFf(loaded, places, infos);
      hyperparameters, vocab, tensors, tensorMap := hp, words, loaded, places;
      r := if sized.Ok? then Done(end) else Raised(sized.error);
    }

    method Load(data: seq<Byte>, offset: nat) returns (r: Outcome<nat>)
      modifies this
      ensures r.Done? ==>
                && ReadModel(data, offset).Done?
                && Holds(ReadModel(data, offset).value.0) && r.value == ReadModel(data, offset).value.1
      ensures r.Raised? ==> ReadModel(data, offset) == Raised(r.error)
      ensures r.WentBack? ==> ReadModel(data, offset) == WentBack(r.at)
    {
      var hp, words, at, s := LoadStart(data, offset);
      if at.Err? {
        return Raised(at.error);
      }
      var loaded, places, end, infos := LoadTensors(data, at.value);
      if !end.Done? {
        return end;
      }
      AfterStart(data, offset, s, infos, end.value);
      r := Keep(hp, words, loaded, places, end.value, s, infos);
    }
  }
}
