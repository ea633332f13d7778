/** Flat .dsk images: a byte file read and written through a cursor. */
module VDisk {
  import opened Proto
  import opened ServerSpec

  /** The host file system; files keep the length they were opened with. */
  class Volume {
    var files: map<FileId, seq<Byte>>
    var names: map<Path, FileId>

    constructor (files: map<FileId, seq<Byte>>, names: map<Path, FileId>)
      ensures this.files == files && this.names == names
    {
      this.files, this.names := files, names;
    }
  }

  datatype DiskError = OutOfRange | ReadOnly

  datatype ReadResult = ReadOk(sector: Sector) | ReadErr(error: DiskError)

  class DskFile {
    const volume: Volume
    const path: Path
    const file: FileId
    const sectorCount: U32
    const readOnly: bool
    var cursor: nat

    ghost function ToHandle(): Handle {
      Handle(path, file, sectorCount, readOnly)
    }

    /** Every sector below the recorded count lies inside the file. */
    ghost predicate Valid()
      reads volume
    {
      Fits(volume.files, ToHandle())
    }

    constructor Open(volume: Volume, path: Path, readOnly: bool)
      requires Resolves(volume.files, volume.names) && path in volume.names
      ensures Valid() && this.volume == volume
      ensures ToHandle() == Opened(volume.files, volume.names, path, readOnly)
    {
      this.volume, this.path, this.file, this.readOnly := volume, path, volume.names[path], readOnly;
      this.sectorCount := SectorCount(|volume.files[volume.names[path]]|);
      this.cursor := 0;
    }

    method Read(lsn: Lsn) returns (r: ReadResult)
      requires Valid()
      modifies this`cursor
      ensures lsn >= sectorCount ==> r == ReadErr(OutOfRange)
      ensures lsn < sectorCount ==> r == ReadOk(SectorAt(volume.files[file], lsn))
    {
      if lsn >= sectorCount {
        return ReadErr(OutOfRange);
      }
      cursor := lsn * SECTOR_SIZE;
      r := ReadOk(volume.files[file][cursor..cursor + SECTOR_SIZE]);
      cursor := cursor + SECTOR_SIZE;
    }

    /** None on success. */
    method Write(lsn: Lsn, data: Sector) returns (r: Option<DiskError>)
      requires Valid()
      modifies this`cursor, volume`files
      ensures Valid()
      ensures readOnly ==> r == Some(ReadOnly)
      ensures !readOnly && lsn >= sectorCount ==> r == Some(OutOfRange)
      ensures !readOnly && lsn < sectorCount ==> r == None
      ensures volume.files == if r.None? then old(volume.files)[file := Patch(old(volume.files)[file], lsn, data)]
                              else old(volume.files)
    {
      if readOnly {
        return Some(ReadOnly);
      }
      if lsn >= sectorCount {
        return Some(OutOfRange);
      }
      cursor := lsn * SECTOR_SIZE;
      var content := volume.files[file];
      volume.files := volume.files[file := content[..cursor] + data + content[cursor + SECTOR_SIZE..]];
      cursor := cursor + SECTOR_SIZE;
      r := None;
    }
  }
}
