/** The satellite's `DataBuffer` REST controller: uploaded text is stored
    under a key `/buffer/data-<n>` from a counter, and can be read and
    deleted by that key. The requests are served one after another here;
    the response is its status and body. */
module SatelliteBuffer {
  import opened Decimal

  const LinkPrefix: string := "/buffer/data-"

  /** A response: 201 Created or 200 OK with a body, or 404 Not Found. */
  datatype Response = Created(body: string) | Found(body: string) | NotFound

  /** The key for counter value n. */
  function KeyFor(n: int): (k: string)
    ensures |k| > |LinkPrefix| && k[..|LinkPrefix|] == LinkPrefix
  {
    LinkPrefix + IntToString(n)
  }

  /** Different counter values give different keys. */
  lemma KeyForInjective(i: int, j: int)
    requires IsInt32(i) && IsInt32(j) && KeyFor(i) == KeyFor(j)
    ensures i == j
  {
    assert KeyFor(i)[|LinkPrefix|..] == IntToString(i);
    assert KeyFor(j)[|LinkPrefix|..] == IntToString(j);
    ParseIntToString(i);
    ParseIntToString(j);
  }

  /** The keys handed out by the first n uploads. */
  ghost function Issued(n: nat): set<string> {
    set j | 1 <= j <= n :: KeyFor(j)
  }

  class DataBuffer {
    /** The `AtomicInteger`: a 32-bit int that wraps around. */
    var counter: int
    var storage: map<string, string>

    /** The counter is a non-negative int and every stored key is one an
        upload handed out. */
    ghost predicate Valid()
      reads this
    {
      0 <= counter <= IntMax && storage.Keys <= Issued(counter)
    }

    constructor ()
      ensures counter == 0 && storage == map[]
      ensures Valid()
    {
      counter := 0;
      storage := map[];
    }

    /** `upload`: the counter goes up by one, the data is stored under the
        key for the new count, and that key is the body of the response.
        While the counter has not reached the largest int the key is one
        no earlier upload had, so nothing stored is replaced. */
    method Upload(data: string) returns (r: Response)
      modifies this
      ensures counter == Wrap32(old(counter) + 1)
      ensures r == Created(KeyFor(counter))
      ensures storage == old(storage)[KeyFor(counter) := data]
      ensures old(Valid()) && old(counter) < IntMax ==>
        counter == old(counter) + 1 && KeyFor(counter) !in old(storage) && Valid()
    {
      counter := Wrap32(counter + 1);
      var key := LinkPrefix + IntToString(counter);
      storage := storage[key := data];
      r := Created(key);
      if old(Valid()) && old(counter) < IntMax {
        UploadKeyIsNew(old(counter), old(storage));
        assert Issued(old(counter)) <= Issued(counter);
      }
    }

    /** `get`: the data stored under exactly that id, or not found. */
    method Get(id: string) returns (r: Response)
      ensures id in storage ==> r == Found(storage[id])
      ensures id !in storage ==> r == NotFound
    {
      if id in storage {
        r := Found(storage[id]);
      } else {
        r := NotFound;
      }
    }

    /** `delete`: the data under that id leaves the storage and is the body
        of the response; an unknown id is not found. Nothing else changes. */
    method Delete(id: string) returns (r: Response)
      modifies this
      ensures id in old(storage) ==> r == Found(old(storage)[id])
      ensures id !in old(storage) ==> r == NotFound
      ensures storage == old(storage) - {id} && counter == old(counter)
      ensures old(Valid()) ==> Valid()
    {
      if id in storage {
        r := Found(storage[id]);
      } else {
        r := NotFound;
      }
      storage := storage - {id};
    }
  }

  /** The key of the next upload is new to a storage of issued keys. */
  lemma UploadKeyIsNew(n: nat, storage: map<string, string>)
    requires n < IntMax && storage.Keys <= Issued(n)
    ensures KeyFor(n + 1) !in storage
  {
    forall j | 1 <= j <= n
      ensures KeyFor(j) != KeyFor(n + 1)
    {
      if KeyFor(j) == KeyFor(n + 1) {
        KeyForInjective(j, n + 1);
      }
    }
  }

  /** Every stored key starts with `/buffer/data-`: lookup is verbatim, so
      an id without that prefix is never found. */
  lemma StoredKeysHavePrefix(n: nat, storage: map<string, string>, id: string)
    requires storage.Keys <= Issued(n)
    requires |id| < |LinkPrefix| || id[..|LinkPrefix|] != LinkPrefix
    ensures id !in storage
  {
  }

  /** An upload, then a read with its key, then a delete and a second read:
      the first upload is `/buffer/data-1`; the read and the delete give the
      data back, and the second read finds nothing. */
  method UploadGetDelete(data: string) returns (up: Response, got: Response, deleted: Response, again: Response)
    ensures up == Created("/buffer/data-1")
    ensures got == Found(data) && deleted == Found(data) && again == NotFound
  {
    var buffer := new DataBuffer();
    up := buffer.Upload(data);
    assert IntToString(1) == "1";
    got := buffer.Get(up.body);
    deleted := buffer.Delete(up.body);
    again := buffer.Get(up.body);
  }

  /** After a delete, the next upload still takes a new key: keys are not
      reused. */
  method NoReuseAfterDelete(a: string, b: string) returns (first: Response, second: Response)
    ensures first == Created(KeyFor(1)) && second == Created(KeyFor(2)) && first.body != second.body
  {
    var buffer := new DataBuffer();
    first := buffer.Upload(a);
    var gone := buffer.Delete(first.body);
    second := buffer.Upload(b);
    if first.body == second.body {
      KeyForInjective(1, 2);
    }
  }
}
