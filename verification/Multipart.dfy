/** The storage side of a segment: an S3 multipart upload, the streaming writer that cuts a byte
    stream into its parts, and the counter wrapped around that writer. Storage calls succeed. */
module Multipart {
  import opened Brtp

  /** S3's lower bound for every part except the last, and the writer's buffer size. */
  const MIN_PART_SIZE := 5 * 1024 * 1024

  datatype UploadStatus = Open | Completed(content: Bytes) | Aborted

  ghost predicate Received(received: map<int, Bytes>, numbers: seq<int>) {
    forall i :: 0 <= i < |numbers| ==> numbers[i] in received
  }

  function Assemble(received: map<int, Bytes>, numbers: seq<int>): Bytes
    requires Received(received, numbers)
  {
    if numbers == [] then []
    else Assemble(received, numbers[..|numbers| - 1]) + received[numbers[|numbers| - 1]]
  }

  lemma {:induction false} AssembleIgnoresNewer(received: map<int, Bytes>, numbers: seq<int>, n: int, data: Bytes)
    requires Received(received, numbers) && n !in numbers
    ensures Received(received[n := data], numbers)
    ensures Assemble(received[n := data], numbers) == Assemble(received, numbers)
  {
    if numbers != [] {
      AssembleIgnoresNewer(received, numbers[..|numbers| - 1], n, data);
    }
  }

  lemma AssembleOneMore(received: map<int, Bytes>, numbers: seq<int>, n: int, data: Bytes)
    requires Received(received, numbers) && n !in numbers
    ensures Received(received[n := data], numbers + [n])
    ensures Assemble(received[n := data], numbers + [n]) == Assemble(received, numbers) + data
  {
    AssembleIgnoresNewer(received, numbers, n, data);
    assert (numbers + [n])[..|numbers|] == numbers;
  }

  /** The object store's end of one upload. Its preconditions are what S3 answers with an error
      otherwise, so every caller proves that the store has no reason to refuse. */
  class MultipartUpload {
    const key: string
    var received: map<int, Bytes>
    var status: UploadStatus

    constructor (key: string)
      ensures this.key == key && received == map[] && status == Open
    {
      this.key, received, status := key, map[], Open;
    }

    method UploadPart(number: int, data: Bytes)
      requires status.Open? && number >= 1
      modifies this
      ensures status == Open && received == old(received)[number := data]
    {
      received := received[number := data];
    }

    method Complete(numbers: seq<int>)
      requires status.Open? && numbers != [] && Received(received, numbers)
      requires forall i, j :: 0 <= i < j < |numbers| ==> numbers[i] < numbers[j]
      requires forall i :: 0 <= i < |numbers| - 1 ==> |received[numbers[i]]| >= MIN_PART_SIZE
      modifies this
      ensures received == old(received) && status == Completed(Assemble(received, numbers))
    {
      status := Completed(Assemble(received, numbers));
    }

    method Abort()
      requires status.Open?
      modifies this
      ensures received == old(received) && status == Aborted
    {
      status := Aborted;
    }
  }

  class S3StreamWriter {
    const upload: MultipartUpload
    var partNumber: int
    var parts: seq<int>
    var buffer: Bytes
    var closed: bool
    ghost var written: Bytes // every byte accepted by Write

    /** Part numbers are exactly 1, 2, ... in order, and the store holds those parts and no other. */
    ghost predicate Numbered()
      reads this, upload
    {
      && |parts| == partNumber
      && (forall i :: 0 <= i < |parts| ==> parts[i] == i + 1)
      && (forall i :: i in upload.received <==> 1 <= i <= partNumber)
    }

    ghost predicate Streaming()
      reads this, upload
    {
      && Numbered()
      && upload.status == Open
      && Assemble(upload.received, parts) + buffer == written
      && (forall i :: 1 <= i <= partNumber ==> |upload.received[i]| >= MIN_PART_SIZE)
    }

    /** While open, the uploaded parts and the buffer are the stream, and no part is too small.
        Once closed, the object is the whole stream, or there is none because nothing was written. */
    ghost predicate Valid()
      reads this, upload
    {
      if closed then
        && Numbered()
        && buffer == []
        && upload.status == (if written == [] then Aborted else Completed(written))
        && (forall i :: 1 <= i < partNumber ==> |upload.received[i]| >= MIN_PART_SIZE)
      else
        && Streaming()
        && |buffer| < MIN_PART_SIZE
    }

    constructor (key: string)
      ensures Valid() && fresh(upload) && upload.key == key && !closed && written == []
    {
      var u := new MultipartUpload(key);
      upload := u;
      partNumber, parts, buffer, closed, written := 0, [], [], false, [];
    }

    method Write(p: Bytes) returns (n: int, ok: bool)
      requires Valid()
      modifies this, upload
      ensures Valid() && closed == old(closed)
      ensures ok == !old(closed) && n == (if ok then |p| else 0)
      ensures written == if ok then old(written) + p else old(written)
      ensures !ok ==> upload.status == old(upload.status)
    {
      if closed {
        return 0, false;
      }
      buffer := buffer + p;
      written := written + p;
      n, ok := |p|, true;
      if |buffer| >= MIN_PART_SIZE {
        UploadPart();
      }
    }

    method UploadPart()
      requires Streaming() && !closed
      modifies this, upload
      ensures Numbered() && upload.status == Open && !closed && written == old(written)
      ensures buffer == [] && Assemble(upload.received, parts) == written
      ensures old(buffer) == [] ==> partNumber == old(partNumber) && parts == old(parts) && upload.received == old(upload.received)
      ensures old(buffer) != [] ==> partNumber == old(partNumber) + 1 && upload.received == old(upload.received)[partNumber := old(buffer)]
    {
      if |buffer| == 0 {
        assert written == Assemble(upload.received, parts) + [];
        return;
      }
      partNumber := partNumber + 1;
      var data := buffer;
      buffer := [];
      AssembleOneMore(upload.received, parts, partNumber, data);
      hide Assemble;
      upload.UploadPart(partNumber, data);
      parts := parts + [partNumber];
    }

    method Close()
      requires Valid()
      modifies this, upload
      ensures Valid() && closed && written == old(written)
      ensures old(closed) ==> upload.status == old(upload.status)
      ensures upload.status == if written == [] then Aborted else Completed(written)
    {
      if closed {
        return;
      }
      if |buffer| > 0 {
        UploadPart();
      } else {
        assert Assemble(upload.received, parts) + [] == Assemble(upload.received, parts);
      }
      closed := true;
      if |parts| > 0 {
        assert |Assemble(upload.received, parts)| >= |upload.received[parts[|parts| - 1]]|;
        upload.Complete(parts);
      } else {
        upload.Abort();
      }
    }

    /** Every finished part but the last is at least the minimum, so parts stay few. */
    lemma PartCountBound()
      requires Valid() && !closed
      ensures partNumber * 5_242_880 <= |written|
    {
      AssembledSize(upload.received, parts);
    }
  }

  lemma {:induction false} AssembledSize(received: map<int, Bytes>, numbers: seq<int>)
    requires Received(received, numbers)
    requires forall i :: 0 <= i < |numbers| ==> |received[numbers[i]]| >= MIN_PART_SIZE
    ensures |numbers| * MIN_PART_SIZE <= |Assemble(received, numbers)|
  {
    if numbers != [] {
      var front := numbers[..|numbers| - 1];
      assert forall i :: 0 <= i < |front| ==> front[i] == numbers[i];
      AssembledSize(received, front);
    }
  }

  /** countingWriteCloser: the byte count that a closed segment reports. */
  class CountingWriteCloser {
    const w: S3StreamWriter
    var n: int

    ghost predicate Valid()
      reads this, w, w.upload
    {
      w.Valid() && n == |w.written|
    }

    constructor (w: S3StreamWriter)
      requires w.Valid() && w.written == []
      ensures Valid() && this.w == w
    {
      this.w, n := w, 0;
    }

    method Write(p: Bytes) returns (count: int, ok: bool)
      requires Valid()
      modifies this, w, w.upload
      ensures Valid() && w.closed == old(w.closed)
      ensures ok == !old(w.closed) && count == (if ok then |p| else 0)
      ensures w.written == if ok then old(w.written) + p else old(w.written)
      ensures !ok ==> w.upload.status == old(w.upload.status)
    {
      count, ok := w.Write(p);
      n := n + count;
    }

    method Close()
      requires Valid()
      modifies w, w.upload
      ensures Valid() && w.closed && w.written == old(w.written) && n == old(n)
      ensures w.upload.status == if w.written == [] then Aborted else Completed(w.written)
    {
      w.Close();
    }

    method Bytes() returns (count: int)
      requires Valid()
      ensures count == |w.written|
    {
      count := n;
    }
  }
}
